/** `base64.b64encode` and `base64.b64decode` (RFC 4648, section 4) as the
    NTLM exchange uses them. Decoding follows CPython's non-strict decoder:
    characters outside the alphabet are skipped, a complete padding ends the
    input, and a dangling quantum is an error. */
module Base64 {
  import opened Base

  /** The character for a 6-bit value. */
  function CharOf(v: nat): (c: char)
    requires v < 64
    ensures c != '=' && c as int < 128
  {
    if v < 26 then ('A' as int + v) as char
    else if v < 52 then ('a' as int + (v - 26)) as char
    else if v < 62 then ('0' as int + (v - 52)) as char
    else if v == 62 then '+'
    else '/'
  }

  /** The 6-bit value of an alphabet character; None for any other. */
  function ValueOf(c: char): (r: Option<nat>)
    ensures r.Some? ==> r.value < 64
  {
    if 'A' <= c <= 'Z' then Some(c as int - 'A' as int)
    else if 'a' <= c <= 'z' then Some(c as int - 'a' as int + 26)
    else if '0' <= c <= '9' then Some(c as int - '0' as int + 52)
    else if c == '+' then Some(62)
    else if c == '/' then Some(63)
    else None
  }

  lemma ValueOfCharOf(v: nat)
    requires v < 64
    ensures ValueOf(CharOf(v)) == Some(v)
  {
  }

  /** The four characters of a full 3-byte group. */
  function Group3(b0: byte, b1: byte, b2: byte): (r: string)
    ensures |r| == 4
  {
    [CharOf(b0 as int / 4), CharOf((b0 as int % 4) * 16 + b1 as int / 16),
     CharOf((b1 as int % 16) * 4 + b2 as int / 64), CharOf(b2 as int % 64)]
  }

  /** `base64.b64encode(b).decode()` */
  function Encode(b: seq<byte>): (r: string)
    ensures |r| == (|b| + 2) / 3 * 4
    ensures forall i :: 0 <= i < |r| ==> r[i] as int < 128
    decreases |b|
  {
    if |b| == 0 then []
    else if |b| == 1 then
      [CharOf(b[0] as int / 4), CharOf((b[0] as int % 4) * 16), '=', '=']
    else if |b| == 2 then
      [CharOf(b[0] as int / 4), CharOf((b[0] as int % 4) * 16 + b[1] as int / 16),
       CharOf((b[1] as int % 16) * 4), '=']
    else Group3(b[0], b[1], b[2]) + Encode(b[3..])
  }

  /** The decoder's position within a quantum and the bits it carries. */
  predicate ValidQuad(quad: nat, left: nat)
  {
    quad <= 3 && (quad == 1 ==> left < 64) && (quad == 2 ==> left < 16) && (quad == 3 ==> left < 4)
  }

  /** CPython's `a2b_base64` loop in non-strict mode over the rest `s` of the
      input, from position `quad` in a quantum carrying bits `left`, after
      `pads` padding characters, having produced `acc`. */
  function Run(s: string, quad: nat, left: nat, pads: nat, acc: seq<byte>): Option<seq<byte>>
    requires ValidQuad(quad, left)
    decreases |s|
  {
    if s == [] then (if quad != 0 then None else Some(acc))
    else if s[0] == '=' then
      if quad >= 2 && quad + pads + 1 >= 4 then Some(acc)
      else Run(s[1..], quad, left, if quad >= 2 then pads + 1 else pads, acc)
    else match ValueOf(s[0])
      case None => Run(s[1..], quad, left, pads, acc)
      case Some(v) =>
        if quad == 0 then Run(s[1..], 1, v, 0, acc)
        else if quad == 1 then Run(s[1..], 2, v % 16, 0, acc + [(left * 4 + v / 16) as byte])
        else if quad == 2 then Run(s[1..], 3, v % 4, 0, acc + [(left * 16 + v / 4) as byte])
        else Run(s[1..], 0, 0, 0, acc + [(left * 64 + v) as byte])
  }

  predicate IsAscii(s: string)
  {
    forall i :: 0 <= i < |s| ==> s[i] as int < 128
  }

  /** `base64.b64decode(s)` for a `str`: None where Python raises (a
      non-ASCII character, or `binascii.Error`). */
  function Decode(s: string): Option<seq<byte>>
  {
    if IsAscii(s) then Run(s, 0, 0, 0, []) else None
  }

  /** Decoding a full group yields its three bytes and returns to the start
      of a quantum. */
  lemma RunGroup3(b0: byte, b1: byte, b2: byte, rest: string, acc: seq<byte>)
    ensures Run(Group3(b0, b1, b2) + rest, 0, 0, 0, acc) == Run(rest, 0, 0, 0, acc + [b0, b1, b2])
  {
    var g := Group3(b0, b1, b2);
    var v0 := b0 as int / 4;
    var v1 := (b0 as int % 4) * 16 + b1 as int / 16;
    var v2 := (b1 as int % 16) * 4 + b2 as int / 64;
    var v3 := b2 as int % 64;
    ValueOfCharOf(v0);
    ValueOfCharOf(v1);
    ValueOfCharOf(v2);
    ValueOfCharOf(v3);
    var s0 := g + rest;
    var s1 := g[1..] + rest;
    var s2 := g[2..] + rest;
    var s3 := g[3..] + rest;
    assert s0[1..] == s1 && s1[1..] == s2 && s2[1..] == s3 && s3[1..] == rest;
    assert s0[0] == CharOf(v0) && s1[0] == CharOf(v1) && s2[0] == CharOf(v2) && s3[0] == CharOf(v3);
    assert (v0 * 4 + v1 / 16) as byte == b0;
    assert v1 % 16 == b1 as int / 16;
    assert ((v1 % 16) * 16 + v2 / 4) as byte == b1;
    assert v2 % 4 == b2 as int / 64;
    assert ((v2 % 4) * 64 + v3) as byte == b2;
    calc {
      Run(s0, 0, 0, 0, acc);
      Run(s1, 1, v0, 0, acc);
      Run(s2, 2, v1 % 16, 0, acc + [b0]);
      Run(s3, 3, v2 % 4, 0, acc + [b0] + [b1]);
      Run(rest, 0, 0, 0, acc + [b0] + [b1] + [b2]);
      { assert acc + [b0] + [b1] + [b2] == acc + [b0, b1, b2]; }
      Run(rest, 0, 0, 0, acc + [b0, b1, b2]);
    }
  }

  /** Decoding the last group of a single byte, padded with two `=`. */
  lemma RunTail1(b0: byte, acc: seq<byte>)
    ensures Run([CharOf(b0 as int / 4), CharOf((b0 as int % 4) * 16), '=', '='], 0, 0, 0, acc) == Some(acc + [b0])
  {
    var e := [CharOf(b0 as int / 4), CharOf((b0 as int % 4) * 16), '=', '='];
    var v0 := b0 as int / 4;
    var v1 := (b0 as int % 4) * 16;
    ValueOfCharOf(v0);
    ValueOfCharOf(v1);
    assert (v0 * 4 + v1 / 16) as byte == b0;
    calc {
      Run(e, 0, 0, 0, acc);
      Run(e[1..], 1, v0, 0, acc);
      { assert e[1..][1..] == e[2..]; }
      Run(e[2..], 2, v1 % 16, 0, acc + [b0]);
      { assert e[2..][1..] == e[3..]; }
      Run(e[3..], 2, v1 % 16, 1, acc + [b0]);
      Some(acc + [b0]);
    }
  }

  /** Decoding the last group of two bytes, padded with one `=`. */
  lemma RunTail2(b0: byte, b1: byte, acc: seq<byte>)
    ensures Run([CharOf(b0 as int / 4), CharOf((b0 as int % 4) * 16 + b1 as int / 16),
                 CharOf((b1 as int % 16) * 4), '='], 0, 0, 0, acc) == Some(acc + [b0, b1])
  {
    var e := [CharOf(b0 as int / 4), CharOf((b0 as int % 4) * 16 + b1 as int / 16),
              CharOf((b1 as int % 16) * 4), '='];
    var v0 := b0 as int / 4;
    var v1 := (b0 as int % 4) * 16 + b1 as int / 16;
    var v2 := (b1 as int % 16) * 4;
    ValueOfCharOf(v0);
    ValueOfCharOf(v1);
    ValueOfCharOf(v2);
    assert (v0 * 4 + v1 / 16) as byte == b0;
    assert ((v1 % 16) * 16 + v2 / 4) as byte == b1;
    calc {
      Run(e, 0, 0, 0, acc);
      Run(e[1..], 1, v0, 0, acc);
      { assert e[1..][1..] == e[2..]; }
      Run(e[2..], 2, v1 % 16, 0, acc + [b0]);
      { assert e[2..][1..] == e[3..]; }
      Run(e[3..], 3, v2 % 4, 0, acc + [b0] + [b1]);
      { assert acc + [b0] + [b1] == acc + [b0, b1]; }
      Some(acc + [b0, b1]);
    }
  }

  /** `b64decode(b64encode(b)) == b` */
  lemma DecodeEncode(b: seq<byte>)
    ensures Decode(Encode(b)) == Some(b)
  {
    RunEncode(b, []);
    assert [] + b == b;
  }

  lemma {:induction false} RunEncode(b: seq<byte>, acc: seq<byte>)
    ensures Run(Encode(b), 0, 0, 0, acc) == Some(acc + b)
    decreases |b|
  {
    if |b| == 0 {
      assert acc + b == acc;
    } else if |b| == 1 {
      RunTail1(b[0], acc);
      assert b == [b[0]];
    } else if |b| == 2 {
      RunTail2(b[0], b[1], acc);
      assert b == [b[0], b[1]];
    } else {
      RunGroup3(b[0], b[1], b[2], Encode(b[3..]), acc);
      RunEncode(b[3..], acc + [b[0], b[1], b[2]]);
      assert acc + [b[0], b[1], b[2]] + b[3..] == acc + b;
    }
  }
}
