/** UTF-8, the text encoding `export_responses_to_file` decodes the export
    payload with. The decoder accepts exactly the well-formed byte sequences
    of Table 3-7 of the Unicode Standard (no overlong forms, no surrogates,
    nothing above U+10FFFF), which is what Python's strict "utf-8" codec
    accepts. */
module Utf8 {
  import opened Values

  predicate IsContinuation(b: byte)
  {
    0x80 <= b < 0xC0
  }

  /** The bytes of one scalar value, shortest form. */
  function EncodeChar(c: char): (bs: seq<byte>)
    ensures 1 <= |bs| <= 4
  {
    var n := c as int;
    if n < 0x80 then [n]
    else if n < 0x800 then [0xC0 + n / 64, 0x80 + n % 64]
    else if n < 0x10000 then [0xE0 + n / 4096, 0x80 + (n / 64) % 64, 0x80 + n % 64]
    else [0xF0 + n / 262144, 0x80 + (n / 4096) % 64, 0x80 + (n / 64) % 64, 0x80 + n % 64]
  }

  function Encode(s: string): seq<byte>
  {
    if |s| == 0 then [] else EncodeChar(s[0]) + Encode(s[1..])
  }

  /** The scalar value at the front of `bs` and the number of bytes it takes,
      or `None` when the front is not a well-formed sequence. */
  function DecodeChar(bs: seq<byte>): (r: Option<(char, int)>)
    requires |bs| > 0
    ensures r.Some? ==> 1 <= r.value.1 <= |bs|
  {
    var b0: int := bs[0];
    if b0 < 0x80 then Some((b0 as char, 1))
    else if 0xC2 <= b0 <= 0xDF then
      if |bs| >= 2 && IsContinuation(bs[1])
      then
        var n: int := (b0 - 0xC0) * 64 + (bs[1] as int - 0x80);
        Some((n as char, 2))
      else None
    else if 0xE0 <= b0 <= 0xEF then
      var lo := if b0 == 0xE0 then 0xA0 else 0x80;
      var hi := if b0 == 0xED then 0x9F else 0xBF;
      if |bs| >= 3 && lo <= bs[1] <= hi && IsContinuation(bs[2])
      then
        var n: int := (b0 - 0xE0) * 4096 + (bs[1] as int - 0x80) * 64 + (bs[2] as int - 0x80);
        Some((n as char, 3))
      else None
    else if 0xF0 <= b0 <= 0xF4 then
      var lo := if b0 == 0xF0 then 0x90 else 0x80;
      var hi := if b0 == 0xF4 then 0x8F else 0xBF;
      if |bs| >= 4 && lo <= bs[1] <= hi && IsContinuation(bs[2]) && IsContinuation(bs[3])
      then
        var n: int := (b0 - 0xF0) * 262144 + (bs[1] as int - 0x80) * 4096 + (bs[2] as int - 0x80) * 64 + (bs[3] as int - 0x80);
        Some((n as char, 4))
      else None
    else None
  }

  /** Decodes a whole byte sequence; `None` if any part is ill-formed. */
  function Decode(bs: seq<byte>): Option<string>
    decreases |bs|
  {
    if |bs| == 0 then Some("")
    else match DecodeChar(bs)
      case None => None
      case Some((c, k)) =>
        match Decode(bs[k..])
        case None => None
        case Some(rest) => Some([c] + rest)
  }

  lemma DecodeCharTwo(c: char, rest: seq<byte>)
    requires 0x80 <= c as int < 0x800
    ensures DecodeChar(EncodeChar(c) + rest) == Some((c, 2))
  {
    var n := c as int;
    assert n == (n / 64) * 64 + n % 64;
  }

  lemma DecodeCharThree(c: char, rest: seq<byte>)
    requires 0x800 <= c as int < 0x10000
    ensures DecodeChar(EncodeChar(c) + rest) == Some((c, 3))
  {
    var n := c as int;
    var q := n / 64;
    assert n == q * 64 + n % 64;
    assert q == (q / 64) * 64 + q % 64;
    assert q / 64 == n / 4096;
  }

  lemma DecodeCharFour(c: char, rest: seq<byte>)
    requires 0x10000 <= c as int
    ensures DecodeChar(EncodeChar(c) + rest) == Some((c, 4))
  {
    var n := c as int;
    var q := n / 64;
    var q2 := q / 64;
    assert n == q * 64 + n % 64;
    assert q == q2 * 64 + q % 64;
    assert q2 == (q2 / 64) * 64 + q2 % 64;
    assert q2 == n / 4096;
    assert q2 / 64 == n / 262144;
  }

  /** The encoding of a scalar value is read back as that value, whatever
      follows it. */
  lemma DecodeCharEncodeChar(c: char, rest: seq<byte>)
    ensures DecodeChar(EncodeChar(c) + rest) == Some((c, |EncodeChar(c)|))
  {
    var n := c as int;
    if n < 0x80 {
    } else if n < 0x800 {
      DecodeCharTwo(c, rest);
    } else if n < 0x10000 {
      DecodeCharThree(c, rest);
    } else {
      DecodeCharFour(c, rest);
    }
  }

  lemma EncodeCharDecodeTwo(bs: seq<byte>)
    requires |bs| >= 2 && 0xC2 <= bs[0] <= 0xDF && DecodeChar(bs).Some?
    ensures EncodeChar(DecodeChar(bs).value.0) == [bs[0], bs[1]]
  {
    var n := DecodeChar(bs).value.0 as int;
    var b0: int, b1: int := bs[0], bs[1];
    assert n / 64 == b0 - 0xC0;
    assert n % 64 == b1 - 0x80;
  }

  lemma EncodeCharDecodeThree(bs: seq<byte>)
    requires |bs| >= 3 && 0xE0 <= bs[0] <= 0xEF && DecodeChar(bs).Some?
    ensures EncodeChar(DecodeChar(bs).value.0) == [bs[0], bs[1], bs[2]]
  {
    var n := DecodeChar(bs).value.0 as int;
    var b0: int, b1: int, b2: int := bs[0], bs[1], bs[2];
    var q := n / 64;
    assert q == (b0 - 0xE0) * 64 + (b1 - 0x80);
    assert n % 64 == b2 - 0x80;
    assert q % 64 == b1 - 0x80;
    assert q / 64 == b0 - 0xE0;
    assert n / 4096 == q / 64;
  }

  lemma EncodeCharDecodeFour(bs: seq<byte>)
    requires |bs| >= 4 && 0xF0 <= bs[0] <= 0xF4 && DecodeChar(bs).Some?
    ensures EncodeChar(DecodeChar(bs).value.0) == [bs[0], bs[1], bs[2], bs[3]]
  {
    var n := DecodeChar(bs).value.0 as int;
    var b0: int, b1: int, b2: int, b3: int := bs[0], bs[1], bs[2], bs[3];
    var q := n / 64;
    var q2 := q / 64;
    assert q == ((b0 - 0xF0) * 64 + (b1 - 0x80)) * 64 + (b2 - 0x80);
    assert n % 64 == b3 - 0x80;
    assert q % 64 == b2 - 0x80;
    assert q2 == (b0 - 0xF0) * 64 + (b1 - 0x80);
    assert q2 % 64 == b1 - 0x80;
    assert q2 / 64 == b0 - 0xF0;
    assert n / 4096 == q2;
    assert n / 262144 == q2 / 64;
  }

  /** A scalar value the decoder reads is encoded back to exactly the bytes it
      was read from. */
  lemma EncodeCharDecodeChar(bs: seq<byte>)
    requires |bs| > 0 && DecodeChar(bs).Some?
    ensures EncodeChar(DecodeChar(bs).value.0) == bs[..DecodeChar(bs).value.1]
  {
    var b0 := bs[0];
    if b0 < 0x80 {
    } else if b0 <= 0xDF {
      EncodeCharDecodeTwo(bs);
      assert bs[..2] == [bs[0], bs[1]];
    } else if b0 <= 0xEF {
      EncodeCharDecodeThree(bs);
      assert bs[..3] == [bs[0], bs[1], bs[2]];
    } else {
      EncodeCharDecodeFour(bs);
      assert bs[..4] == [bs[0], bs[1], bs[2], bs[3]];
    }
  }

  /** Decoding undoes encoding. */
  lemma {:induction false} DecodeEncode(s: string)
    ensures Decode(Encode(s)) == Some(s)
    decreases |s|
  {
    if |s| > 0 {
      var head := EncodeChar(s[0]);
      var bs := Encode(s);
      assert bs == head + Encode(s[1..]);
      DecodeCharEncodeChar(s[0], Encode(s[1..]));
      assert bs[|head|..] == Encode(s[1..]);
      DecodeEncode(s[1..]);
      assert s == [s[0]] + s[1..];
    }
  }

  /** A successful decode reads one scalar value and decodes the rest. */
  lemma DecodeStep(bs: seq<byte>, s: string)
    requires |bs| > 0 && Decode(bs) == Some(s)
    ensures DecodeChar(bs).Some?
    ensures |s| > 0 && s[0] == DecodeChar(bs).value.0
    ensures Decode(bs[DecodeChar(bs).value.1..]) == Some(s[1..])
  {
    var (c, k) := DecodeChar(bs).value;
    var rest := Decode(bs[k..]).value;
    assert s == [c] + rest;
    assert s[1..] == rest;
  }

  lemma EncodeFront(s: string)
    requires |s| > 0
    ensures Encode(s) == EncodeChar(s[0]) + Encode(s[1..])
  {
  }

  /** If the front bytes encode the first scalar value and the remaining
      bytes encode the rest, the bytes encode the whole text. */
  lemma EncodeJoin(bs: seq<byte>, s: string, k: int)
    requires |s| > 0 && 0 <= k <= |bs|
    requires EncodeChar(s[0]) == bs[..k] && Encode(s[1..]) == bs[k..]
    ensures Encode(s) == bs
  {
    var head, tail := bs[..k], bs[k..];
    EncodeFront(s);
    assert Encode(s) == head + tail;
    assert head + tail == bs;
  }

  /** Encoding undoes decoding: the decoder accepts only shortest-form
      sequences, so a decoded text has one byte form. */
  lemma {:induction false} EncodeDecode(bs: seq<byte>, s: string)
    requires Decode(bs) == Some(s)
    ensures Encode(s) == bs
    decreases |bs|
  {
    if |bs| > 0 {
      DecodeStep(bs, s);
      var k := DecodeChar(bs).value.1;
      EncodeDecode(bs[k..], s[1..]);
      EncodeCharDecodeChar(bs);
      EncodeJoin(bs, s, k);
    }
  }
}
