/** The S3 flavour of URL query escaping (cmd/api-utils.go). */
module S3Encode {
  import opened Bytes

  const SPACE: byte := 0x20
  const PLUS: byte := 0x2B
  const PERCENT: byte := 0x25
  const STACK_BUFFER := 64

  /** Letters, digits, '-', '_', '.', '/' and '*' are left alone; every other byte is escaped. */
  predicate ShouldEscape(c: byte) {
    !(0x41 <= c <= 0x5A || 0x61 <= c <= 0x7A || 0x30 <= c <= 0x39 ||
      c == 0x2D || c == 0x5F || c == 0x2E || c == 0x2F || c == 0x2A)
  }

  function HexDigit(n: int): (d: byte)
    requires 0 <= n < 16
  {
    if n < 10 then 0x30 + n else 0x37 + n
  }

  function HexValue(d: byte): Option<int> {
    if 0x30 <= d <= 0x39 then Some(d - 0x30)
    else if 0x41 <= d <= 0x46 then Some(d - 0x37)
    else None
  }

  /** The specification: what one byte becomes. */
  function EncodeByte(c: byte): bytes {
    if c == SPACE then [PLUS]
    else if ShouldEscape(c) then [PERCENT, HexDigit(c / 16), HexDigit(c % 16)]
    else [c]
  }

  /** The specification: the concatenation of the images of the bytes. */
  function Encode(s: bytes): bytes {
    if s == [] then [] else EncodeByte(s[0]) + Encode(s[1..])
  }

  /** What is left as it is, in characters. */
  predicate IsPlain(c: char) {
    'A' <= c <= 'Z' || 'a' <= c <= 'z' || '0' <= c <= '9' || c in "-_./*"
  }

  /** Every byte is left alone, or becomes a plus sign, or a percent sign and its two digits. */
  lemma EncodeByteExactly(c: byte)
    ensures EncodeByte(c) == [c] <==> IsPlain(c as char)
    ensures EncodeByte(c) == ['+' as int] <==> c == ' ' as int
    ensures !IsPlain(c as char) && c != ' ' as int ==>
              EncodeByte(c) == ['%' as int, "0123456789ABCDEF"[c / 16] as int, "0123456789ABCDEF"[c % 16] as int]
  {
    assert 'A' as int == 0x41 && 'Z' as int == 0x5A && 'a' as int == 0x61 && 'z' as int == 0x7A;
  }

  function SpaceCount(s: bytes): nat {
    if s == [] then 0 else (if s[0] == SPACE then 1 else 0) + SpaceCount(s[1..])
  }

  function HexCount(s: bytes): nat {
    if s == [] then 0 else (if s[0] != SPACE && ShouldEscape(s[0]) then 1 else 0) + HexCount(s[1..])
  }

  lemma {:induction false} CountsSnoc(s: bytes, c: byte)
    ensures SpaceCount(s + [c]) == SpaceCount(s) + if c == SPACE then 1 else 0
    ensures HexCount(s + [c]) == HexCount(s) + if c != SPACE && ShouldEscape(c) then 1 else 0
  {
    if s != [] {
      assert (s + [c])[1..] == s[1..] + [c];
      CountsSnoc(s[1..], c);
    }
  }

  lemma {:induction false} EncodeConcat(s: bytes, t: bytes)
    ensures Encode(s + t) == Encode(s) + Encode(t)
  {
    if s == [] {
      assert s + t == t;
    } else {
      assert (s + t)[1..] == s[1..] + t;
      EncodeConcat(s[1..], t);
    }
  }

  lemma EncodeSnoc(s: bytes, c: byte)
    ensures Encode(s + [c]) == Encode(s) + EncodeByte(c)
  {
    EncodeConcat(s, [c]);
    assert Encode([c]) == EncodeByte(c) + Encode([]);
  }

  /** The buffer size the encoder computes up front is the exact length of the result. */
  lemma {:induction false} EncodedLength(s: bytes)
    ensures |Encode(s)| == |s| + 2 * HexCount(s)
  {
    if s != [] {
      EncodedLength(s[1..]);
    }
  }

  /** A string without a byte to escape is its own encoding; without '%' escapes, position i depends on s[i] only. */
  lemma {:induction false} EncodeWithoutHex(s: bytes)
    requires HexCount(s) == 0
    ensures |Encode(s)| == |s|
    ensures forall i :: 0 <= i < |s| ==> Encode(s)[i] == if s[i] == SPACE then PLUS else s[i]
    ensures SpaceCount(s) == 0 ==> Encode(s) == s
  {
    if s != [] {
      EncodeWithoutHex(s[1..]);
      assert forall i :: 0 < i < |s| ==> s[i] == s[1..][i - 1] && Encode(s)[i] == Encode(s[1..])[i - 1];
    }
  }

  lemma {:induction false} CountPrefixMonotone(s: bytes, i: nat)
    requires i <= |s|
    ensures HexCount(s[..i]) <= HexCount(s)
  {
    if i == 0 {
    } else {
      assert s[..i][1..] == s[1..][..i - 1];
      CountPrefixMonotone(s[1..], i - 1);
    }
  }

  /**
   * The encoder with its three paths: nothing to do, spaces only, and the general one.
   * The target is the 64-byte stack buffer when it is large enough and a fresh one otherwise;
   * only its first `required` bytes are ever written, and all of them are.
   */
  method S3URLEncode(s: bytes) returns (r: bytes)
    ensures r == Encode(s)
  {
    var spaceCount, hexCount := 0, 0;
    for i := 0 to |s|
      invariant spaceCount == SpaceCount(s[..i]) && hexCount == HexCount(s[..i])
    {
      var c := s[i];
      CountsSnoc(s[..i], c);
      assert s[..i + 1] == s[..i] + [c];
      if ShouldEscape(c) {
        if c == SPACE {
          spaceCount := spaceCount + 1;
        } else {
          hexCount := hexCount + 1;
        }
      }
    }
    assert s[..|s|] == s;
    if spaceCount == 0 && hexCount == 0 {
      EncodeWithoutHex(s);
      return s;
    }
    var required := |s| + 2 * hexCount;
    var t := new byte[if required <= STACK_BUFFER then STACK_BUFFER else required];
    if hexCount == 0 {
      r := EncodeSpaces(s, t);
    } else {
      r := EncodeGeneral(s, t, required);
    }
  }

  method EncodeSpaces(s: bytes, t: array<byte>) returns (r: bytes)
    requires HexCount(s) == 0 && |s| <= t.Length
    modifies t
    ensures r == Encode(s)
  {
    forall k | 0 <= k < |s| {
      t[k] := s[k];
    }
    for i := 0 to |s|
      invariant forall k :: 0 <= k < i ==> t[k] == if s[k] == SPACE then PLUS else s[k]
      invariant forall k :: i <= k < |s| ==> t[k] == s[k]
    {
      if s[i] == SPACE {
        t[i] := PLUS;
      }
    }
    EncodeWithoutHex(s);
    r := t[..|s|];
  }

  lemma NothingToEncode()
    ensures HexCount([]) == 0 && Encode([]) == []
  {
  }

  method EncodeGeneral(s: bytes, t: array<byte>, required: nat) returns (r: bytes)
    requires required == |s| + 2 * HexCount(s) && required <= t.Length
    modifies t
    ensures r == Encode(s)
  {
    var j := 0;
    hide HexCount, Encode;
    assert HexCount([]) == 0 && Encode([]) == [] by {
      NothingToEncode();
    }
    for i := 0 to |s|
      invariant j == i + 2 * HexCount(s[..i]) <= required
      invariant t[..j] == Encode(s[..i])
    {
      var c := s[i];
      ghost var done := t[..j];
      assert s[..i + 1] == s[..i] + [c];
      EncodeSnoc(s[..i], c);
      CountsSnoc(s[..i], c);
      CountPrefixMonotone(s, i + 1);
      if c == SPACE {
        t[j] := PLUS;
        j := j + 1;
      } else if ShouldEscape(c) {
        t[j], t[j + 1], t[j + 2] := PERCENT, HexDigit(c / 16), HexDigit(c % 16);
        j := j + 3;
      } else {
        t[j] := s[i];
        j := j + 1;
      }
      assert t[..j] == done + EncodeByte(c);
    }
    assert s[..|s|] == s;
    r := t[..required];
  }

  // ---- the decoder and the round trip ----

  /** '+' is a space, "%HH" the byte with that hexadecimal value (section 2.1 of RFC 3986), all else itself. */
  function Decode(t: bytes): Option<bytes> {
    if t == [] then Some([])
    else if t[0] == PERCENT then
      if |t| < 3 then None
      else match (HexValue(t[1]), HexValue(t[2]))
        case (Some(hi), Some(lo)) => Prepend(hi * 16 + lo, Decode(t[3..]))
        case _ => None
    else Prepend(if t[0] == PLUS then SPACE else t[0], Decode(t[1..]))
  }

  function Prepend(c: byte, rest: Option<bytes>): Option<bytes> {
    match rest
    case None => None
    case Some(s) => Some([c] + s)
  }

  lemma DecodeStep(c: byte, rest: bytes)
    ensures Decode(EncodeByte(c) + rest) == Prepend(c, Decode(rest))
  {
    var t := EncodeByte(c) + rest;
    if c != SPACE && ShouldEscape(c) {
      assert t[3..] == rest;
      assert t[1] == HexDigit(c / 16) && t[2] == HexDigit(c % 16);
    } else {
      assert t[1..] == rest;
    }
  }

  /** Decoding undoes encoding, for every string of bytes. */
  lemma {:induction false} DecodeUndoesEncode(s: bytes)
    ensures Decode(Encode(s)) == Some(s)
  {
    if s != [] {
      DecodeStep(s[0], Encode(s[1..]));
      DecodeUndoesEncode(s[1..]);
      assert [s[0]] + s[1..] == s;
    }
  }

  /** Two different names never encode to the same text. */
  lemma EncodeInjective(s: bytes, t: bytes)
    requires Encode(s) == Encode(t)
    ensures s == t
  {
    DecodeUndoesEncode(s);
    DecodeUndoesEncode(t);
  }

  /**
   * The texts an encoder may emit: raw bytes that need no escape, '+', and "%HH" with upper-case digits
   * of a byte that does need one and is not a space.
   */
  predicate Canonical(t: bytes) {
    t == [] ||
    if t[0] == PERCENT then
      |t| >= 3 && HexValue(t[1]).Some? && HexValue(t[2]).Some? &&
      (var c := HexValue(t[1]).value * 16 + HexValue(t[2]).value; c != SPACE && ShouldEscape(c)) &&
      Canonical(t[3..])
    else
      (t[0] == PLUS || !ShouldEscape(t[0])) && Canonical(t[1..])
  }

  lemma {:induction false} EncodeIsCanonical(s: bytes)
    ensures Canonical(Encode(s))
  {
    if s != [] {
      EncodeIsCanonical(s[1..]);
      var t := Encode(s);
      if s[0] != SPACE && ShouldEscape(s[0]) {
        assert t[3..] == Encode(s[1..]);
        assert t[1] == HexDigit(s[0] / 16) && t[2] == HexDigit(s[0] % 16);
      } else {
        assert t[1..] == Encode(s[1..]);
      }
    }
  }

  /** The image of the encoder is exactly the canonical texts: each of them is the encoding of what it decodes to. */
  lemma {:induction false} CanonicalIsTheImage(t: bytes)
    ensures Canonical(t) <==> Decode(t).Some? && Encode(Decode(t).value) == t
  {
    if Canonical(t) {
      CanonicalReencodes(t);
    } else if Decode(t).Some? && Encode(Decode(t).value) == t {
      EncodeIsCanonical(Decode(t).value);
    }
  }

  /** The first character of a canonical text is the encoding of the first byte that it decodes to. */
  lemma CanonicalHead(t: bytes) returns (c: byte, n: nat)
    requires Canonical(t) && t != []
    ensures 0 < n <= |t| && Canonical(t[n..]) && EncodeByte(c) == t[..n]
    ensures Decode(t) == Prepend(c, Decode(t[n..]))
  {
    if t[0] == PERCENT {
      c, n := HexValue(t[1]).value * 16 + HexValue(t[2]).value, 3;
    } else {
      c, n := if t[0] == PLUS then SPACE else t[0], 1;
    }
  }

  lemma EncodeOne(c: byte)
    ensures Encode([c]) == EncodeByte(c)
  {
    assert Encode([c]) == EncodeByte(c) + Encode([]);
  }

  lemma {:induction false} CanonicalReencodes(t: bytes)
    requires Canonical(t)
    ensures Decode(t).Some? && Encode(Decode(t).value) == t
  {
    hide Encode, EncodeByte;
    if t == [] {
      NothingToEncode();
    } else {
      var c, n := CanonicalHead(t);
      hide *;
      CanonicalReencodes(t[n..]);
      Reencoded(t, c, n);
    }
  }

  lemma Reencoded(t: bytes, c: byte, n: nat)
    requires n <= |t| && EncodeByte(c) == t[..n] && Decode(t) == Prepend(c, Decode(t[n..]))
    requires Decode(t[n..]).Some? && Encode(Decode(t[n..]).value) == t[n..]
    ensures Decode(t).Some? && Encode(Decode(t).value) == t
  {
    hide Decode, Encode, EncodeByte;
    EncodeConcat([c], Decode(t[n..]).value);
    EncodeOne(c);
    assert t == t[..n] + t[n..];
  }
}
