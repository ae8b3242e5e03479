/** Base64 as defined in section 4 of RFC 4648: each 3-byte group becomes
    four characters of the 64-character alphabet, and a final group of one
    or two bytes is padded with `=`. This models `base64.b64encode`; the
    decoder is its inverse, given here to prove that the encoding loses
    nothing. */
module Base64 {
  import opened Python

  type byte = x: int | 0 <= x < 256

  type sextet = x: int | 0 <= x < 64

  /** Table 1 of RFC 4648: `A`-`Z`, `a`-`z`, `0`-`9`, `+`, `/`. */
  function CharOf(v: sextet): char {
    if v < 26 then ('A' as int + v) as char
    else if v < 52 then ('a' as int + (v - 26)) as char
    else if v < 62 then ('0' as int + (v - 52)) as char
    else if v == 62 then '+'
    else '/'
  }

  /** The value of an alphabet character; `None` for anything else,
      including the pad character `=`. */
  function ValueOf(c: char): Option<sextet> {
    if 'A' <= c <= 'Z' then Some(c as int - 'A' as int)
    else if 'a' <= c <= 'z' then Some(c as int - 'a' as int + 26)
    else if '0' <= c <= '9' then Some(c as int - '0' as int + 52)
    else if c == '+' then Some(62)
    else if c == '/' then Some(63)
    else None
  }

  lemma ValueOfCharOf(v: sextet)
    ensures ValueOf(CharOf(v)) == Some(v)
  {
  }

  /** `base64.b64encode(data)`, read as text. */
  function Encode(data: seq<byte>): (s: string)
    ensures |s| == 4 * ((|data| + 2) / 3)
    decreases |data|
  {
    if |data| == 0 then ""
    else if |data| == 1 then
      [CharOf(data[0] / 4), CharOf(data[0] % 4 * 16), '=', '=']
    else if |data| == 2 then
      [CharOf(data[0] / 4), CharOf(data[0] % 4 * 16 + data[1] / 16),
       CharOf(data[1] % 16 * 4), '=']
    else
      Quad(data[0], data[1], data[2]) + Encode(data[3..])
  }

  /** The four characters of a full 3-byte group. */
  function Quad(x: byte, y: byte, z: byte): (s: string)
    ensures |s| == 4
  {
    [CharOf(x / 4), CharOf(x % 4 * 16 + y / 16), CharOf(y % 16 * 4 + z / 64), CharOf(z % 64)]
  }

  /** The three bytes packed into the sextets `a b c d`. */
  function First(a: sextet, b: sextet): byte { a as int * 4 + b as int / 16 }

  function Second(b: sextet, c: sextet): byte { b as int % 16 * 16 + c as int / 4 }

  function Third(c: sextet, d: sextet): byte { c as int % 4 * 64 + d as int }

  /** Strict decoding: whole 4-character groups of alphabet characters,
      with padding allowed only in the last one. */
  function Decode(s: string): Option<seq<byte>>
    decreases |s|
  {
    if s == "" then Some([])
    else if |s| < 4 then None
    else if |s| == 4 && s[2] == '=' && s[3] == '=' then
      match (ValueOf(s[0]), ValueOf(s[1]))
      case (Some(a), Some(b)) => Some([First(a, b)])
      case _ => None
    else if |s| == 4 && s[3] == '=' then
      match (ValueOf(s[0]), ValueOf(s[1]), ValueOf(s[2]))
      case (Some(a), Some(b), Some(c)) => Some([First(a, b), Second(b, c)])
      case _ => None
    else
      match (ValueOf(s[0]), ValueOf(s[1]), ValueOf(s[2]), ValueOf(s[3]), Decode(s[4..]))
      case (Some(a), Some(b), Some(c), Some(d), Some(rest)) =>
        Some([First(a, b), Second(b, c), Third(c, d)] + rest)
      case _ => None
  }

  /** The bit arithmetic of one group: the four sextets put back together
      give the three bytes they were cut from. */
  lemma GroupArithmetic(x: byte, y: byte, z: byte)
    ensures x / 4 * 4 + (x % 4 * 16 + y / 16) / 16 == x
    ensures (x % 4 * 16 + y / 16) % 16 * 16 + (y % 16 * 4 + z / 64) / 4 == y
    ensures (y % 16 * 4 + z / 64) % 4 * 64 + z % 64 == z
  {
  }

  /** Every character of an encoding is an alphabet character or `=`, and
      so it never holds `;` or `,`. */
  lemma {:induction false} EncodeAlphabet(data: seq<byte>)
    ensures forall i :: 0 <= i < |Encode(data)| ==>
      Encode(data)[i] == '=' || ValueOf(Encode(data)[i]).Some?
    decreases |data|
  {
    if |data| >= 1 {
      var x := data[0];
      ValueOfCharOf(x / 4);
      ValueOfCharOf(x % 4 * 16);
      if |data| >= 2 {
        var y := data[1];
        ValueOfCharOf(x % 4 * 16 + y / 16);
        ValueOfCharOf(y % 16 * 4);
        if |data| >= 3 {
          var z := data[2];
          assert Encode(data)[..4] == Quad(x, y, z);
          ValueOfCharOf(y % 16 * 4 + z / 64);
          ValueOfCharOf(z % 64);
          EncodeAlphabet(data[3..]);
        }
      }
    }
  }

  lemma DecodeOneByte(x: byte)
    ensures Decode(Encode([x])) == Some([x])
  {
    var a, b := x / 4, x % 4 * 16;
    assert Encode([x]) == [CharOf(a), CharOf(b), '=', '='];
    ValueOfCharOf(a);
    ValueOfCharOf(b);
    assert First(a, b) == x by { GroupArithmetic(x, 0, 0); }
  }

  lemma DecodeTwoBytes(x: byte, y: byte)
    ensures Decode(Encode([x, y])) == Some([x, y])
  {
    var a, b, c := x / 4, x % 4 * 16 + y / 16, y % 16 * 4;
    assert Encode([x, y]) == [CharOf(a), CharOf(b), CharOf(c), '='];
    ValueOfCharOf(a);
    ValueOfCharOf(b);
    ValueOfCharOf(c);
    assert First(a, b) == x && Second(b, c) == y by { GroupArithmetic(x, y, 0); }
  }

  /** A full group decodes to its three bytes, ahead of whatever the rest
      of the text decodes to. */
  lemma DecodeQuad(x: byte, y: byte, z: byte, rest: string, tail: seq<byte>)
    requires Decode(rest) == Some(tail)
    ensures Decode(Quad(x, y, z) + rest) == Some([x, y, z] + tail)
  {
    var a, b, c, d := x / 4, x % 4 * 16 + y / 16, y % 16 * 4 + z / 64, z % 64;
    var s := Quad(x, y, z) + rest;
    ValueOfCharOf(a);
    ValueOfCharOf(b);
    ValueOfCharOf(c);
    ValueOfCharOf(d);
    assert s[4..] == rest;
    assert s[3] != '=';
    assert First(a, b) == x && Second(b, c) == y && Third(c, d) == z by {
      GroupArithmetic(x, y, z);
    }
  }

  /** A final group of one or two bytes decodes to itself. */
  lemma DecodeEncodeShort(data: seq<byte>)
    requires 1 <= |data| <= 2
    ensures Decode(Encode(data)) == Some(data)
  {
    if |data| == 1 {
      assert data == [data[0]];
      DecodeOneByte(data[0]);
    } else {
      assert data == [data[0], data[1]];
      DecodeTwoBytes(data[0], data[1]);
    }
  }

  /** Decoding an encoding gives back the original bytes. */
  lemma {:induction false} DecodeEncode(data: seq<byte>)
    ensures Decode(Encode(data)) == Some(data)
    decreases |data|
  {
    if 1 <= |data| <= 2 {
      DecodeEncodeShort(data);
    } else if |data| >= 3 {
      var x, y, z, rest := data[0], data[1], data[2], data[3..];
      DecodeEncode(rest);
      var e := Encode(rest);
      calc {
        Decode(Encode(data));
        Decode(Quad(x, y, z) + e);
        { DecodeQuad(x, y, z, e, rest); }
        Some([x, y, z] + rest);
        { assert data == [x, y, z] + rest; }
        Some(data);
      }
    }
  }
}
