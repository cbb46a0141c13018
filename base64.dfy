/**
  Base64 in the standard alphabet with '=' padding (section 4 of RFC 4648), as
  `base64.b64encode` produces it for the photo data URIs of the detail view,
  together with the decoding that recovers the bytes.
*/
module Base64 {
  import opened Util

  /** The character that stands for a 6-bit value. */
  function CharOf(i: nat): char
    requires i < 64
  {
    if i < 26 then ('A' as int + i) as char
    else if i < 52 then ('a' as int + i - 26) as char
    else if i < 62 then ('0' as int + i - 52) as char
    else if i == 62 then '+'
    else '/'
  }

  predicate InAlphabet(c: char)
  {
    'A' <= c <= 'Z' || 'a' <= c <= 'z' || '0' <= c <= '9' || c == '+' || c == '/'
  }

  /** The 6-bit value a character of the alphabet stands for. */
  function ValueOf(c: char): (i: nat)
    requires InAlphabet(c)
    ensures i < 64 && CharOf(i) == c
  {
    if 'A' <= c <= 'Z' then c as int - 'A' as int
    else if 'a' <= c <= 'z' then c as int - 'a' as int + 26
    else if '0' <= c <= '9' then c as int - '0' as int + 52
    else if c == '+' then 62
    else 63
  }

  lemma ValueOfCharOf(i: nat)
    requires i < 64
    ensures InAlphabet(CharOf(i)) && ValueOf(CharOf(i)) == i && CharOf(i) != '='
  {
  }

  /** Three bytes become four characters. */
  function EncodeBlock(x: byte, y: byte, z: byte): (s: string)
    ensures |s| == 4
  {
    var a, b, c := x as nat, y as nat, z as nat;
    [CharOf(a / 4), CharOf(a % 4 * 16 + b / 16), CharOf(b % 16 * 4 + c / 64), CharOf(c % 64)]
  }

  /** `base64.b64encode`: the bytes in groups of three; a short last group is padded with '='. */
  function Encode(bytes: seq<byte>): string
  {
    if |bytes| == 0 then ""
    else if |bytes| == 1 then
      var a := bytes[0] as nat;
      [CharOf(a / 4), CharOf(a % 4 * 16), '=', '=']
    else if |bytes| == 2 then
      var a, b := bytes[0] as nat, bytes[1] as nat;
      [CharOf(a / 4), CharOf(a % 4 * 16 + b / 16), CharOf(b % 16 * 4), '=']
    else EncodeBlock(bytes[0], bytes[1], bytes[2]) + Encode(bytes[3..])
  }

  /** Every group of up to three bytes becomes four characters. */
  lemma {:induction false} EncodeLength(bytes: seq<byte>)
    ensures |Encode(bytes)| == 4 * ((|bytes| + 2) / 3)
  {
    if |bytes| >= 3 {
      EncodeLength(bytes[3..]);
      assert (|bytes| + 2) / 3 == (|bytes[3..]| + 2) / 3 + 1;
    }
  }

  /** The first full group of three bytes is encoded in front of the rest. */
  lemma EncodeFullGroup(bytes: seq<byte>)
    requires |bytes| >= 3
    ensures Encode(bytes) == EncodeBlock(bytes[0], bytes[1], bytes[2]) + Encode(bytes[3..])
  {
  }

  /** Four characters back to the one, two or three bytes they carry. */
  function DecodeQuad(q: string): (r: Option<seq<byte>>)
    requires |q| == 4
    ensures r.Some? ==> 1 <= |r.value| <= 3
  {
    if !(InAlphabet(q[0]) && InAlphabet(q[1])) then None
    else
      var a, b := ValueOf(q[0]), ValueOf(q[1]);
      var x := (a * 4 + b / 16) as byte;
      if q[2] == '=' && q[3] == '=' then Some([x])
      else if !InAlphabet(q[2]) then None
      else
        var c := ValueOf(q[2]);
        var y := (b % 16 * 16 + c / 4) as byte;
        if q[3] == '=' then Some([x, y])
        else if !InAlphabet(q[3]) then None
        else Some([x, y, (c % 4 * 64 + ValueOf(q[3])) as byte])
  }

  /** Decoding of a whole text; padding may only end it. */
  function Decode(s: string): Option<seq<byte>>
  {
    if |s| == 0 then Some([])
    else if |s| < 4 then None
    else match DecodeQuad(s[..4])
      case None => None
      case Some(head) =>
        if |head| < 3 && |s| > 4 then None
        else match Decode(s[4..])
          case None => None
          case Some(tail) => Some(head + tail)
  }

  /** The bit arithmetic of one full group: the four 6-bit values give back the three bytes. */
  lemma BlockArithmetic(a: nat, b: nat, c: nat)
    requires a < 256 && b < 256 && c < 256
    ensures (a / 4) * 4 + (a % 4 * 16 + b / 16) / 16 == a
    ensures (a % 4 * 16 + b / 16) % 16 * 16 + (b % 16 * 4 + c / 64) / 4 == b
    ensures (b % 16 * 4 + c / 64) % 4 * 64 + c % 64 == c
  {
  }

  lemma DecodeBlock(x: byte, y: byte, z: byte)
    ensures DecodeQuad(EncodeBlock(x, y, z)) == Some([x, y, z])
  {
    var a, b, c := x as nat, y as nat, z as nat;
    var v0, v1, v2, v3 := a / 4, a % 4 * 16 + b / 16, b % 16 * 4 + c / 64, c % 64;
    var q := EncodeBlock(x, y, z);
    assert q == [CharOf(v0), CharOf(v1), CharOf(v2), CharOf(v3)];
    ValueOfCharOf(v0);
    ValueOfCharOf(v1);
    ValueOfCharOf(v2);
    ValueOfCharOf(v3);
    BlockArithmetic(a, b, c);
    assert (v0 * 4 + v1 / 16) as byte == x;
    assert (v1 % 16 * 16 + v2 / 4) as byte == y;
    assert (v2 % 4 * 64 + v3) as byte == z;
  }

  /** A text of exactly one group decodes as that group. */
  lemma DecodeLastQuad(q: string, head: seq<byte>)
    requires |q| == 4 && DecodeQuad(q) == Some(head)
    ensures Decode(q) == Some(head)
  {
    assert q[..4] == q && q[4..] == [];
    assert head + [] == head;
  }

  /** A full group in front of a decodable text decodes to its three bytes in front. */
  lemma DecodeFullQuad(q: string, rest: string, head: seq<byte>, tail: seq<byte>)
    requires |q| == 4 && DecodeQuad(q) == Some(head) && |head| == 3
    requires Decode(rest) == Some(tail)
    ensures Decode(q + rest) == Some(head + tail)
  {
    var s := q + rest;
    assert s[..4] == q && s[4..] == rest;
  }

  lemma DecodeOneByte(x: byte)
    ensures Decode(Encode([x])) == Some([x])
  {
    var a := x as nat;
    var s := Encode([x]);
    ValueOfCharOf(a / 4);
    ValueOfCharOf(a % 4 * 16);
    assert (a / 4) * 4 + (a % 4 * 16) / 16 == a;
    assert DecodeQuad(s) == Some([x]);
    DecodeLastQuad(s, [x]);
  }

  lemma DecodeTwoBytes(x: byte, y: byte)
    ensures Decode(Encode([x, y])) == Some([x, y])
  {
    var a, b := x as nat, y as nat;
    var s := Encode([x, y]);
    ValueOfCharOf(a / 4);
    ValueOfCharOf(a % 4 * 16 + b / 16);
    ValueOfCharOf(b % 16 * 4);
    assert (a / 4) * 4 + (a % 4 * 16 + b / 16) / 16 == a;
    assert (a % 4 * 16 + b / 16) % 16 * 16 + (b % 16 * 4) / 4 == b;
    assert s[2] != '=' && s[3] == '=';
    assert DecodeQuad(s) == Some([x, y]);
    DecodeLastQuad(s, [x, y]);
  }

  lemma FirstThree(bytes: seq<byte>)
    requires |bytes| >= 3
    ensures bytes == [bytes[0], bytes[1], bytes[2]] + bytes[3..]
  {
  }

  /** One full group in front: if the rest round-trips, so does the whole. */
  lemma DecodeEncodeGroup(bytes: seq<byte>)
    requires |bytes| >= 3
    requires Decode(Encode(bytes[3..])) == Some(bytes[3..])
    ensures Decode(Encode(bytes)) == Some(bytes)
  {
    var head, rest := [bytes[0], bytes[1], bytes[2]], bytes[3..];
    var block := EncodeBlock(bytes[0], bytes[1], bytes[2]);
    EncodeFullGroup(bytes);
    DecodeBlock(bytes[0], bytes[1], bytes[2]);
    DecodeFullQuad(block, Encode(rest), head, rest);
    FirstThree(bytes);
  }

  /** Decoding the encoding of any bytes gives back those bytes. */
  lemma {:induction false} DecodeEncode(bytes: seq<byte>)
    ensures Decode(Encode(bytes)) == Some(bytes)
  {
    if |bytes| == 1 {
      assert bytes == [bytes[0]];
      DecodeOneByte(bytes[0]);
    } else if |bytes| == 2 {
      assert bytes == [bytes[0], bytes[1]];
      DecodeTwoBytes(bytes[0], bytes[1]);
    } else if |bytes| >= 3 {
      DecodeEncode(bytes[3..]);
      DecodeEncodeGroup(bytes);
    }
  }
}
