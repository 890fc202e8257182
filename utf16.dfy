/** `str.encode('utf-16-le')` and `bytes.decode('utf-16-le')` (RFC 2781):
    little-endian code units, with surrogate pairs above U+FFFF. The decoder
    is strict: an odd byte count or an unpaired surrogate is an error. */
module Utf16 {
  import opened Base

  /** The two little-endian bytes of a 16-bit code unit. */
  function Unit(u: nat): (r: seq<byte>)
    requires u < 0x1_0000
    ensures |r| == 2 && r[0] as int + 256 * r[1] as int == u
  {
    [(u % 256) as byte, (u / 256) as byte]
  }

  function EncodeChar(c: char): (r: seq<byte>)
    ensures |r| == 2 || |r| == 4
    ensures |r| == 2 <==> c as int < 0x1_0000
  {
    var n := c as int;
    if n < 0x1_0000 then Unit(n)
    else
      var v := n - 0x1_0000;
      Unit(0xD800 + v / 1024) + Unit(0xDC00 + v % 1024)
  }

  /** `s.encode('utf-16-le')` */
  function Encode(s: string): (r: seq<byte>)
    ensures |r| % 2 == 0 && |r| >= 2 * |s|
  {
    if s == [] then [] else EncodeChar(s[0]) + Encode(s[1..])
  }

  /** `b.decode('utf-16-le')`; None where Python raises `UnicodeDecodeError`. */
  function Decode(b: seq<byte>): Option<string>
    decreases |b|
  {
    if |b| == 0 then Some([])
    else if |b| == 1 then None
    else
      var u := b[0] as int + 256 * b[1] as int;
      if u < 0xD800 || 0xDFFF < u then
        match Decode(b[2..])
        case None => None
        case Some(t) => Some([u as char] + t)
      else if u <= 0xDBFF && |b| >= 4 then
        var w := b[2] as int + 256 * b[3] as int;
        if 0xDC00 <= w <= 0xDFFF then
          match Decode(b[4..])
          case None => None
          case Some(t) => Some([(0x1_0000 + (u - 0xD800) * 1024 + (w - 0xDC00)) as char] + t)
        else None
      else None
  }

  /** `(s.encode('utf-16-le')).decode('utf-16-le') == s` */
  lemma {:induction false} DecodeEncode(s: string)
    ensures Decode(Encode(s)) == Some(s)
  {
    if s != [] {
      var c := s[0];
      var e := EncodeChar(c);
      var rest := Encode(s[1..]);
      DecodeEncode(s[1..]);
      var b := e + rest;
      assert Encode(s) == b;
      if c as int < 0x1_0000 {
        assert b[2..] == rest;
        assert b[0] as int + 256 * b[1] as int == c as int;
      } else {
        var v := c as int - 0x1_0000;
        assert b[0] as int + 256 * b[1] as int == 0xD800 + v / 1024;
        assert b[2] as int + 256 * b[3] as int == 0xDC00 + v % 1024;
        assert b[4..] == rest;
      }
      assert s == [c] + s[1..];
    }
  }

  /** Two bytes read as a little-endian unit are written back as the same
      two bytes. */
  lemma UnitOf(b: seq<byte>)
    requires |b| >= 2
    ensures Unit(b[0] as int + 256 * b[1] as int) == b[..2]
  {
    var u := b[0] as int + 256 * b[1] as int;
    assert u % 256 == b[0] as int && u / 256 == b[1] as int;
  }

  /** A high and a low surrogate combine into a character that encodes
      back to the same two units. */
  lemma PairOf(u: int, w: int)
    requires 0xD800 <= u <= 0xDBFF && 0xDC00 <= w <= 0xDFFF
    ensures EncodeChar((0x1_0000 + (u - 0xD800) * 1024 + (w - 0xDC00)) as char) == Unit(u) + Unit(w)
  {
    var v := (u - 0xD800) * 1024 + (w - 0xDC00);
    assert v / 1024 == u - 0xD800 && v % 1024 == w - 0xDC00;
  }

  /** Whatever decodes re-encodes to the same bytes: the decoder accepts
      exactly the encodings of strings. */
  lemma {:induction false} EncodeDecode(b: seq<byte>)
    requires Decode(b).Some?
    ensures Encode(Decode(b).value) == b
    decreases |b|
  {
    if |b| >= 2 {
      var u := b[0] as int + 256 * b[1] as int;
      var s := Decode(b).value;
      if u < 0xD800 || 0xDFFF < u {
        var t := Decode(b[2..]).value;
        assert s == [u as char] + t;
        EncodeDecode(b[2..]);
        UnitOf(b);
        assert s[0] == u as char && s[1..] == t;
        assert Encode(s) == b[..2] + b[2..];
        assert b == b[..2] + b[2..];
      } else {
        assert u <= 0xDBFF && |b| >= 4;
        var w := b[2] as int + 256 * b[3] as int;
        var t := Decode(b[4..]).value;
        var c := (0x1_0000 + (u - 0xD800) * 1024 + (w - 0xDC00)) as char;
        assert s == [c] + t;
        EncodeDecode(b[4..]);
        PairOf(u, w);
        UnitOf(b);
        UnitOf(b[2..]);
        assert s[0] == c && s[1..] == t;
        assert Encode(s) == (b[..2] + b[2..4]) + b[4..];
        assert b == (b[..2] + b[2..4]) + b[4..];
      }
    }
  }

  /** A string of characters below U+10000 takes exactly two bytes per
      character. */
  lemma {:induction false} EncodeLengthBmp(s: string)
    requires forall i :: 0 <= i < |s| ==> s[i] as int < 0x1_0000
    ensures |Encode(s)| == 2 * |s|
  {
    if s != [] {
      EncodeLengthBmp(s[1..]);
    }
  }
}
