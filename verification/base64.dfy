/** Base64 with the standard alphabet and `=` padding, as in section 4 of
    RFC 4648: the decoding `export_responses_to_file` applies to the export
    payload, and the encoding that produced it. */
module Base64 {
  import opened Values

  /** The character for a 6-bit group: A-Z, a-z, 0-9, '+', '/'. */
  function CharOf(i: int): (c: char)
    requires 0 <= i < 64
    ensures c != '='
  {
    if i < 26 then ('A' as int + i) as char
    else if i < 52 then ('a' as int + (i - 26)) as char
    else if i < 62 then ('0' as int + (i - 52)) as char
    else if i == 62 then '+'
    else '/'
  }

  /** The 6-bit group a character stands for, if it is in the alphabet. */
  function IndexOf(c: char): (r: Option<int>)
    ensures r.Some? ==> 0 <= r.value < 64 && CharOf(r.value) == c
  {
    if 'A' <= c <= 'Z' then Some(c as int - 'A' as int)
    else if 'a' <= c <= 'z' then Some(c as int - 'a' as int + 26)
    else if '0' <= c <= '9' then Some(c as int - '0' as int + 52)
    else if c == '+' then Some(62)
    else if c == '/' then Some(63)
    else None
  }

  lemma IndexOfCharOf(i: int)
    requires 0 <= i < 64
    ensures IndexOf(CharOf(i)) == Some(i)
  {
  }

  /** Three bytes as four characters. */
  function EncodeTriple(a: byte, b: byte, c: byte): string
  {
    [CharOf(a / 4), CharOf((a % 4) * 16 + b / 16), CharOf((b % 16) * 4 + c / 64), CharOf(c % 64)]
  }

  /** Encodes bytes, padding the final group with `=`. */
  function Encode(bs: seq<byte>): (s: string)
    ensures |s| % 4 == 0
    decreases |bs|
  {
    if |bs| == 0 then ""
    else if |bs| == 1 then [CharOf(bs[0] / 4), CharOf((bs[0] % 4) * 16), '=', '=']
    else if |bs| == 2 then
      [CharOf(bs[0] / 4), CharOf((bs[0] % 4) * 16 + bs[1] / 16), CharOf((bs[1] % 16) * 4), '=']
    else EncodeTriple(bs[0], bs[1], bs[2]) + Encode(bs[3..])
  }

  /** Four alphabet characters as three bytes. */
  function DecodeQuad(q: string): (r: Option<seq<byte>>)
    requires |q| == 4
    ensures r.Some? ==> |r.value| == 3
  {
    match (IndexOf(q[0]), IndexOf(q[1]), IndexOf(q[2]), IndexOf(q[3]))
    case (Some(i), Some(j), Some(k), Some(l)) =>
      Some([i * 4 + j / 16, (j % 16) * 16 + k / 4, (k % 4) * 64 + l])
    case _ => None
  }

  /** The last group, which may end in one or two `=`. Bits beyond the last
      byte are ignored, as the non-validating decoder does. */
  function DecodeFinal(q: string): (r: Option<seq<byte>>)
    requires |q| == 4
    ensures r.Some? ==> 1 <= |r.value| <= 3
  {
    if q[2] == '=' && q[3] == '=' then
      match (IndexOf(q[0]), IndexOf(q[1]))
      case (Some(i), Some(j)) => Some([i * 4 + j / 16])
      case _ => None
    else if q[3] == '=' then
      match (IndexOf(q[0]), IndexOf(q[1]), IndexOf(q[2]))
      case (Some(i), Some(j), Some(k)) => Some([i * 4 + j / 16, (j % 16) * 16 + k / 4])
      case _ => None
    else DecodeQuad(q)
  }

  /** Decodes padded base64 text; `None` for a length that is not a multiple
      of four, a character outside the alphabet, or padding anywhere but the
      end. */
  function Decode(s: string): (r: Option<seq<byte>>)
    ensures r.Some? ==> |s| % 4 == 0
    decreases |s|
  {
    if |s| == 0 then Some([])
    else if |s| < 4 then None
    else if |s| == 4 then DecodeFinal(s)
    else match (DecodeQuad(s[..4]), Decode(s[4..]))
      case (Some(head), Some(tail)) => Some(head + tail)
      case _ => None
  }

  /** The 6-bit groups of three bytes put the bytes back together. */
  lemma RegroupTriple(a: int, b: int, c: int)
    requires 0 <= a < 256 && 0 <= b < 256 && 0 <= c < 256
    ensures var i, j, k, l := a / 4, (a % 4) * 16 + b / 16, (b % 16) * 4 + c / 64, c % 64;
            && i * 4 + j / 16 == a
            && (j % 16) * 16 + k / 4 == b
            && (k % 4) * 64 + l == c
  {
    var j := (a % 4) * 16 + b / 16;
    var k := (b % 16) * 4 + c / 64;
    assert j / 16 == a % 4 && j % 16 == b / 16;
    assert k / 4 == b % 16 && k % 4 == c / 64;
  }

  lemma DecodeQuadTriple(a: byte, b: byte, c: byte)
    ensures DecodeQuad(EncodeTriple(a, b, c)) == Some([a, b, c])
  {
    var i, j, k, l := a / 4, (a % 4) * 16 + b / 16, (b % 16) * 4 + c / 64, c % 64;
    IndexOfCharOf(i);
    IndexOfCharOf(j);
    IndexOfCharOf(k);
    IndexOfCharOf(l);
    RegroupTriple(a, b, c);
    assert EncodeTriple(a, b, c) == [CharOf(i), CharOf(j), CharOf(k), CharOf(l)];
  }

  lemma DecodeFinalOne(a: byte)
    ensures DecodeFinal([CharOf(a / 4), CharOf((a % 4) * 16), '=', '=']) == Some([a])
  {
    IndexOfCharOf(a / 4);
    IndexOfCharOf((a % 4) * 16);
  }

  lemma DecodeFinalTwo(a: byte, b: byte)
    ensures DecodeFinal([CharOf(a / 4), CharOf((a % 4) * 16 + b / 16), CharOf((b % 16) * 4), '=']) == Some([a, b])
  {
    IndexOfCharOf(a / 4);
    IndexOfCharOf((a % 4) * 16 + b / 16);
    IndexOfCharOf((b % 16) * 4);
  }

  /** A full group followed by more text decodes group by group. */
  lemma DecodeCons(q: string, rest: string)
    requires |q| == 4 && |rest| > 0
    ensures Decode(q + rest) ==
              match (DecodeQuad(q), Decode(rest))
              case (Some(head), Some(tail)) => Some(head + tail)
              case _ => None
  {
    assert (q + rest)[..4] == q;
    assert (q + rest)[4..] == rest;
  }

  lemma DecodeEncodeTriple(bs: seq<byte>)
    requires |bs| == 3
    ensures Decode(Encode(bs)) == Some(bs)
  {
    var q := EncodeTriple(bs[0], bs[1], bs[2]);
    assert Encode(bs) == q + Encode(bs[3..]);
    assert Encode(bs) == q;
    assert DecodeFinal(q) == DecodeQuad(q);
    DecodeQuadTriple(bs[0], bs[1], bs[2]);
    assert bs == [bs[0], bs[1], bs[2]];
  }

  lemma DecodeEncodeShort(bs: seq<byte>)
    requires 1 <= |bs| <= 2
    ensures Decode(Encode(bs)) == Some(bs)
  {
    if |bs| == 1 {
      DecodeFinalOne(bs[0]);
      assert bs == [bs[0]];
    } else {
      DecodeFinalTwo(bs[0], bs[1]);
      assert bs == [bs[0], bs[1]];
    }
  }

  lemma EncodeStep(bs: seq<byte>)
    requires |bs| > 3
    ensures Encode(bs) == EncodeTriple(bs[0], bs[1], bs[2]) + Encode(bs[3..])
    ensures |Encode(bs[3..])| > 0
  {
  }

  /** Two decodable pieces decode to the concatenation of their bytes. */
  lemma DecodeJoin(q: string, rest: string, head: seq<byte>, tail: seq<byte>)
    requires |q| == 4 && |rest| > 0
    requires DecodeQuad(q) == Some(head) && Decode(rest) == Some(tail)
    ensures Decode(q + rest) == Some(head + tail)
  {
    DecodeCons(q, rest);
  }

  /** A group of three in front of a longer payload. */
  lemma DecodeEncodeStep(bs: seq<byte>)
    requires |bs| > 3
    requires Decode(Encode(bs[3..])) == Some(bs[3..])
    ensures Decode(Encode(bs)) == Some([bs[0], bs[1], bs[2]] + bs[3..])
  {
    EncodeStep(bs);
    DecodeQuadTriple(bs[0], bs[1], bs[2]);
    DecodeJoin(EncodeTriple(bs[0], bs[1], bs[2]), Encode(bs[3..]), [bs[0], bs[1], bs[2]], bs[3..]);
  }

  lemma SplitFront(bs: seq<byte>)
    requires |bs| > 3
    ensures bs == [bs[0], bs[1], bs[2]] + bs[3..]
  {
  }

  /** Decoding undoes encoding: the payload the service encoded is recovered
      byte for byte. */
  lemma {:induction false} DecodeEncode(bs: seq<byte>)
    ensures Decode(Encode(bs)) == Some(bs)
    decreases |bs|
  {
    if 1 <= |bs| <= 2 {
      DecodeEncodeShort(bs);
    } else if |bs| == 3 {
      DecodeEncodeTriple(bs);
    } else if |bs| > 3 {
      DecodeEncode(bs[3..]);
      DecodeEncodeStep(bs);
      SplitFront(bs);
    }
  }
}
