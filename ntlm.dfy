/** The proxy's NTLM exchange (the message layouts of [MS-NLMP] sections
    2.2.1.2 and 2.2.1.3): the CHALLENGE message it sends and the fields it
    reads from the AUTHENTICATE message a client returns. No signature or
    response is checked, as in the source. */
module Ntlm {
  import opened Base
  import opened Text
  import Base64
  import Utf16

  /** `b'NTLMSSP\x00'` */
  const Signature: seq<byte> := [0x4E, 0x54, 0x4C, 0x4D, 0x53, 0x53, 0x50, 0x00]

  /** The negotiate flags the proxy announces. */
  const ChallengeFlags: nat := 0xe2898235

  /** The offset written into the CHALLENGE message's TargetName field. */
  const TargetOffset: nat := 56

  function Zeros(n: nat): (r: seq<byte>)
    ensures |r| == n && forall i :: 0 <= i < n ==> r[i] == 0
  {
    seq(n, i => 0)
  }

  /** `struct.pack('<H', n)` */
  function U16(n: nat): (r: seq<byte>)
    requires n < 0x1_0000
    ensures |r| == 2
  {
    [(n % 256) as byte, (n / 256) as byte]
  }

  /** `struct.pack('<I', n)` */
  function U32(n: nat): (r: seq<byte>)
    requires n < 0x1_0000_0000
    ensures |r| == 4
  {
    [(n % 256) as byte, (n / 256 % 256) as byte, (n / 256 / 256 % 256) as byte, (n / 256 / 256 / 256) as byte]
  }

  /** The four bytes of `U32(n)`, read little-endian, give `n` back. */
  lemma U32Value(n: nat)
    requires n < 0x1_0000_0000
    ensures var w := U32(n); w[0] as int + 256 * w[1] as int + 0x1_0000 * w[2] as int + 0x100_0000 * w[3] as int == n
  {
    var q1 := n / 256;
    var q2 := q1 / 256;
    var q3 := q2 / 256;
    assert n == n % 256 + 256 * q1;
    assert q1 == q1 % 256 + 256 * q2;
    assert q2 == q2 % 256 + 256 * q3;
    assert q3 < 256;
  }

  /** `struct.unpack('<H', b[off:off+2])[0]`; None where the slice is short
      and `struct.error` is raised. */
  function ReadU16(b: seq<byte>, off: nat): Option<nat>
  {
    if off + 2 <= |b| then Some(b[off] as int + 256 * b[off + 1] as int) else None
  }

  /** `struct.unpack('<I', b[off:off+4])[0]` */
  function ReadU32(b: seq<byte>, off: nat): Option<nat>
  {
    if off + 4 <= |b| then
      Some(b[off] as int + 256 * b[off + 1] as int + 0x1_0000 * b[off + 2] as int + 0x100_0000 * b[off + 3] as int)
    else None
  }

  lemma ReadU16At(b: seq<byte>, off: nat, n: nat)
    requires n < 0x1_0000 && off + 2 <= |b| && b[off..off + 2] == U16(n)
    ensures ReadU16(b, off) == Some(n)
  {
    assert b[off] == b[off..off + 2][0] && b[off + 1] == b[off..off + 2][1];
  }

  lemma ReadU32At(b: seq<byte>, off: nat, n: nat)
    requires n < 0x1_0000_0000 && off + 4 <= |b| && b[off..off + 4] == U32(n)
    ensures ReadU32(b, off) == Some(n)
  {
    var w := b[off..off + 4];
    assert b[off] == w[0] && b[off + 1] == w[1] && b[off + 2] == w[2] && b[off + 3] == w[3];
    U32Value(n);
  }

  /** The identity an NTLM login yields (`auth_method`, `cn`, `domain`,
      `cert_dn`). */
  datatype NtlmUser = NtlmUser(cn: string, domain: string, certDn: string)

  /** The CHALLENGE message exactly as `create_ntlm_challenge` lays it out,
      given the eight random challenge bytes; None where `struct.pack`
      rejects a target name of 65536 bytes or more. */
  function ChallengeMessageAsWritten(challenge: seq<byte>, ntlmDomain: string): (r: Option<seq<byte>>)
    requires |challenge| == 8
    ensures r.Some? <==> |Utf16.Encode(ntlmDomain)| < 0x1_0000
  {
    var target := Utf16.Encode(ntlmDomain);
    if |target| >= 0x1_0000 then None
    else Some(Signature + U32(2) + U16(|target|) + U16(|target|) + U32(TargetOffset)
              + U32(ChallengeFlags) + challenge + Zeros(8) + target)
  }

  /** `create_ntlm_challenge()` as written: the base64 text of the message
      `ChallengeMessageAsWritten` lays out; a client decoding it gets that
      message back. */
  function CreateChallengeAsWritten(challenge: seq<byte>, ntlmDomain: string): (r: Option<string>)
    requires |challenge| == 8
    ensures r.Some? <==> ChallengeMessageAsWritten(challenge, ntlmDomain).Some?
    ensures r.Some? ==> Base64.Decode(r.value) == ChallengeMessageAsWritten(challenge, ntlmDomain)
  {
    match ChallengeMessageAsWritten(challenge, ntlmDomain)
    case None => None
    case Some(m) =>
      Base64.DecodeEncode(m);
      Some(Base64.Encode(m))
  }

  /** The corrected challenge builder: the base64 text of the CHALLENGE
      message with the target where its offset field says. */
  function CreateChallenge(challenge: seq<byte>, ntlmDomain: string): Option<string>
    requires |challenge| == 8
  {
    match ChallengeMessage(challenge, ntlmDomain)
    case None => None
    case Some(m) => Some(Base64.Encode(m))
  }

  /** The fields of the CHALLENGE message as written: signature, type 2,
      the target length twice, offset 56, the flags, the challenge, then the
      target itself right after the 40-byte header. */
  lemma ChallengeLayoutAsWritten(challenge: seq<byte>, ntlmDomain: string)
    requires |challenge| == 8 && ChallengeMessageAsWritten(challenge, ntlmDomain).Some?
    ensures var m := ChallengeMessageAsWritten(challenge, ntlmDomain).value;
      var target := Utf16.Encode(ntlmDomain);
      |m| == 40 + |target| && m[..8] == Signature &&
      ReadU32(m, 8) == Some(2) && ReadU16(m, 12) == Some(|target|) && ReadU16(m, 14) == Some(|target|) &&
      ReadU32(m, 16) == Some(TargetOffset) && ReadU32(m, 20) == Some(ChallengeFlags) &&
      m[24..32] == challenge && m[40..] == target
  {
    var m := ChallengeMessageAsWritten(challenge, ntlmDomain).value;
    var target := Utf16.Encode(ntlmDomain);
    assert m[8..12] == U32(2);
    assert m[12..14] == U16(|target|);
    assert m[14..16] == U16(|target|);
    assert m[16..20] == U32(TargetOffset);
    assert m[20..24] == U32(ChallengeFlags);
    ReadU32At(m, 8, 2);
    ReadU16At(m, 12, |target|);
    ReadU16At(m, 14, |target|);
    ReadU32At(m, 16, TargetOffset);
    ReadU32At(m, 20, ChallengeFlags);
  }

  /** What a client reads as the target name: the bytes the TargetName
      field's length and offset designate, decoded. */
  function TargetNameRead(m: seq<byte>): Option<string>
  {
    match (ReadU16(m, 12), ReadU32(m, 16))
    case (Some(len), Some(off)) => Utf16.Decode(Slice(m, off, off + len))
    case _ => None
  }

  /** The CHALLENGE message with the target name where its offset says: the
      TargetInfo field (empty) and the Version field (zero) fill the header
      to 56 bytes before the target. */
  function ChallengeMessage(challenge: seq<byte>, ntlmDomain: string): (r: Option<seq<byte>>)
    requires |challenge| == 8
    ensures r.Some? <==> |Utf16.Encode(ntlmDomain)| < 0x1_0000
  {
    var target := Utf16.Encode(ntlmDomain);
    if |target| >= 0x1_0000 then None
    else Some(ChallengeHead(challenge, |target|) + target)
  }

  /** The 56 bytes before the target name in the CHALLENGE message, for a
      target of `tl` bytes. */
  function ChallengeHead(challenge: seq<byte>, tl: nat): (r: seq<byte>)
    requires |challenge| == 8 && tl < 0x1_0000
    ensures |r| == TargetOffset && r[..8] == Signature && r[24..32] == challenge
    ensures ReadU32(r, 8) == Some(2) && ReadU16(r, 12) == Some(tl)
    ensures ReadU32(r, 16) == Some(TargetOffset) && ReadU32(r, 20) == Some(ChallengeFlags)
  {
    var r := Signature + U32(2) + U16(tl) + U16(tl) + U32(TargetOffset)
      + U32(ChallengeFlags) + challenge + Zeros(8)
      + U16(0) + U16(0) + U32(TargetOffset + tl) + Zeros(8);
    assert r[8..12] == U32(2);
    assert r[12..14] == U16(tl);
    assert r[16..20] == U32(TargetOffset);
    assert r[20..24] == U32(ChallengeFlags);
    ReadU32At(r, 8, 2);
    ReadU16At(r, 12, tl);
    ReadU32At(r, 16, TargetOffset);
    ReadU32At(r, 20, ChallengeFlags);
    r
  }

  /** As written, a client that follows the TargetName field does not find
      the domain: the offset points 16 bytes past where the target starts,
      so it reads nothing for a target of at most 16 bytes and the target's
      tail for a longer one. */
  lemma ChallengeTargetMisplaced(challenge: seq<byte>, ntlmDomain: string)
    requires |challenge| == 8 && ntlmDomain != "" && ChallengeMessageAsWritten(challenge, ntlmDomain).Some?
    ensures TargetNameRead(ChallengeMessageAsWritten(challenge, ntlmDomain).value) != Some(ntlmDomain)
    ensures |Utf16.Encode(ntlmDomain)| <= 16 ==>
            TargetNameRead(ChallengeMessageAsWritten(challenge, ntlmDomain).value) == Some("")
  {
    var m := ChallengeMessageAsWritten(challenge, ntlmDomain).value;
    var target := Utf16.Encode(ntlmDomain);
    ChallengeLayoutAsWritten(challenge, ntlmDomain);
    var read := Slice(m, TargetOffset, TargetOffset + |target|);
    assert |read| < |target|;
    assert TargetNameRead(m) == Utf16.Decode(read);
    if Utf16.Decode(read).Some? {
      Utf16.EncodeDecode(read);
    }
    if |target| <= 16 {
      assert read == [];
    }
  }

  /** The challenge the proxy sends, decoded by a client that follows its
      TargetName field, does not name the configured domain. */
  lemma SentChallengeMisplaced(challenge: seq<byte>, ntlmDomain: string)
    requires |challenge| == 8 && ntlmDomain != "" && CreateChallengeAsWritten(challenge, ntlmDomain).Some?
    ensures var m := Base64.Decode(CreateChallengeAsWritten(challenge, ntlmDomain).value);
      m.Some? && TargetNameRead(m.value) != Some(ntlmDomain)
  {
    ChallengeTargetMisplaced(challenge, ntlmDomain);
  }

  /** The corrected CHALLENGE message: signature, type 2, the flags
      and the challenge where the source puts them, and a header filled to
      56 bytes so that the TargetName field designates the encoded domain;
      a client decoding the base64 text and following that field reads the
      domain back. */
  lemma ChallengeLayout(challenge: seq<byte>, ntlmDomain: string)
    requires |challenge| == 8 && ChallengeMessage(challenge, ntlmDomain).Some?
    ensures var m := ChallengeMessage(challenge, ntlmDomain).value;
      |m| == TargetOffset + |Utf16.Encode(ntlmDomain)| && m[..8] == Signature &&
      ReadU32(m, 8) == Some(2) && ReadU32(m, 20) == Some(ChallengeFlags) && m[24..32] == challenge &&
      m[TargetOffset..] == Utf16.Encode(ntlmDomain) &&
      TargetNameRead(m) == Some(ntlmDomain) &&
      Base64.Decode(CreateChallenge(challenge, ntlmDomain).value) == Some(m)
  {
    var m := ChallengeMessage(challenge, ntlmDomain).value;
    var target := Utf16.Encode(ntlmDomain);
    var hd := ChallengeHead(challenge, |target|);
    assert m == hd + target;
    Utf16.DecodeEncode(ntlmDomain);
    TargetAfterHead(hd, target, ntlmDomain);
    assert CreateChallenge(challenge, ntlmDomain).value == Base64.Encode(m);
    Base64.DecodeEncode(m);
  }

  /** A head followed by the target: the head's fields read the same, and
      the TargetName field designates the target. */
  lemma TargetAfterHead(hd: seq<byte>, target: seq<byte>, name: string)
    requires |hd| == TargetOffset && ReadU16(hd, 12) == Some(|target|) && ReadU32(hd, 16) == Some(TargetOffset)
    requires Utf16.Decode(target) == Some(name)
    ensures (hd + target)[..8] == hd[..8] && (hd + target)[24..32] == hd[24..32]
    ensures ReadU32(hd + target, 8) == ReadU32(hd, 8) && ReadU32(hd + target, 20) == ReadU32(hd, 20)
    ensures (hd + target)[TargetOffset..] == target
    ensures TargetNameRead(hd + target) == Some(name)
  {
    var m := hd + target;
    ReadsInPrefix(hd, target, 8);
    ReadsInPrefix(hd, target, 12);
    ReadsInPrefix(hd, target, 16);
    ReadsInPrefix(hd, target, 20);
    assert m[TargetOffset..] == target;
    SliceWithin(m, TargetOffset, TargetOffset + |target|);
    TargetNameAt(m, target, name);
  }

  /** The TargetName field designating the encoded name reads the name. */
  lemma TargetNameAt(m: seq<byte>, target: seq<byte>, name: string)
    requires ReadU16(m, 12) == Some(|target|) && ReadU32(m, 16) == Some(TargetOffset)
    requires Slice(m, TargetOffset, TargetOffset + |target|) == target
    requires Utf16.Decode(target) == Some(name)
    ensures TargetNameRead(m) == Some(name)
  {
  }

  /** `verify_ntlm(auth_header)`: the identity in a type 3 message; None for
      a missing prefix, bad base64, a wrong signature, a type 1 or any other
      type, a short message or undecodable names. */
  function VerifyNtlm(authHeader: string): Option<NtlmUser>
  {
    if !StartsWith(authHeader, "NTLM ") then None
    else match Base64.Decode(authHeader[5..])
      case None => None
      case Some(data) =>
        if !(|data| >= 8 && data[..8] == Signature) then None
        else match ReadU32(data, 8)
          case None => None
          case Some(msgType) =>
            if msgType == 1 then None
            else if msgType == 3 then ReadAuthenticate(data)
            else None
  }

  /** The user and domain names of a type 3 message, read through their
      length and offset fields. */
  function ReadAuthenticate(data: seq<byte>): Option<NtlmUser>
  {
    var dl := ReadU16(data, 28);
    var doff := ReadU32(data, 32);
    var ul := ReadU16(data, 36);
    var uoff := ReadU32(data, 40);
    if dl.None? || doff.None? || ul.None? || uoff.None? then None
    else
      var domain := Utf16.Decode(Slice(data, doff.value, doff.value + dl.value));
      var username := Utf16.Decode(Slice(data, uoff.value, uoff.value + ul.value));
      if domain.None? || username.None? then None
      else Some(NtlmUser(username.value, domain.value, "CN=" + username.value))
  }

  /** A type 1 (NEGOTIATE) message with the given flags. */
  function NegotiateMessage(flags: nat): seq<byte>
    requires flags < 0x1_0000_0000
  {
    Signature + U32(1) + U32(flags) + Zeros(16)
  }

  /** A NEGOTIATE message never authenticates: the proxy answers it with a
      challenge. */
  lemma NegotiateNotUser(flags: nat)
    requires flags < 0x1_0000_0000
    ensures VerifyNtlm("NTLM " + Base64.Encode(NegotiateMessage(flags))) == None
  {
    var m := NegotiateMessage(flags);
    var h := "NTLM " + Base64.Encode(m);
    assert StartsWith(h, "NTLM ");
    assert h[5..] == Base64.Encode(m);
    Base64.DecodeEncode(m);
    assert m[..8] == Signature;
    assert m[8..12] == U32(1);
    ReadU32At(m, 8, 1);
  }

  /** The 64-byte header of an AUTHENTICATE message carrying only the
      domain and user names (the responses, workstation and session key
      fields empty), followed in the message by the domain, then the user. */
  function AuthenticateHeader(dl: nat, ul: nat): (r: seq<byte>)
    requires dl < 0x1_0000 && ul < 0x1_0000
    ensures |r| == 64 && r[..8] == Signature
    ensures ReadU32(r, 8) == Some(3)
    ensures ReadU16(r, 28) == Some(dl) && ReadU32(r, 32) == Some(64)
    ensures ReadU16(r, 36) == Some(ul) && ReadU32(r, 40) == Some(64 + dl)
  {
    var r := Signature + U32(3) + Zeros(16)
      + U16(dl) + U16(dl) + U32(64)
      + U16(ul) + U16(ul) + U32(64 + dl)
      + Zeros(20);
    assert r[8..12] == U32(3);
    assert r[28..30] == U16(dl);
    assert r[32..36] == U32(64);
    assert r[36..38] == U16(ul);
    assert r[40..44] == U32(64 + dl);
    ReadU32At(r, 8, 3);
    ReadU16At(r, 28, dl);
    ReadU32At(r, 32, 64);
    ReadU16At(r, 36, ul);
    ReadU32At(r, 40, 64 + dl);
    r
  }

  function AuthenticateMessage(domain: string, user: string): seq<byte>
    requires |Utf16.Encode(domain)| < 0x1_0000 && |Utf16.Encode(user)| < 0x1_0000
  {
    var d := Utf16.Encode(domain);
    var u := Utf16.Encode(user);
    AuthenticateHeader(|d|, |u|) + (d + u)
  }

  lemma ReadsInPrefix(a: seq<byte>, b: seq<byte>, off: nat)
    ensures off + 2 <= |a| ==> ReadU16(a + b, off) == ReadU16(a, off)
    ensures off + 4 <= |a| ==> ReadU32(a + b, off) == ReadU32(a, off)
  {
  }

  lemma ReadAuthenticateFields(m: seq<byte>, dl: nat, doff: nat, ul: nat, uoff: nat, domain: string, user: string)
    requires ReadU16(m, 28) == Some(dl) && ReadU32(m, 32) == Some(doff)
    requires ReadU16(m, 36) == Some(ul) && ReadU32(m, 40) == Some(uoff)
    requires Utf16.Decode(Slice(m, doff, doff + dl)) == Some(domain)
    requires Utf16.Decode(Slice(m, uoff, uoff + ul)) == Some(user)
    ensures ReadAuthenticate(m) == Some(NtlmUser(user, domain, "CN=" + user))
  {
  }

  /** The header fields `ReadAuthenticate` reads: the lengths of the two
      names and their offsets, the domain right after the 64-byte header and
      the user right after the domain. */
  predicate NameFields(hd: seq<byte>, dl: nat, ul: nat)
  {
    |hd| == 64 &&
    ReadU16(hd, 28) == Some(dl) && ReadU32(hd, 32) == Some(64) &&
    ReadU16(hd, 36) == Some(ul) && ReadU32(hd, 40) == Some(64 + dl)
  }

  /** The encoded name at `off` decodes to the name. */
  lemma NameAt(m: seq<byte>, off: nat, enc: seq<byte>, name: string)
    requires off + |enc| <= |m| && m[off..off + |enc|] == enc && Utf16.Decode(enc) == Some(name)
    ensures Utf16.Decode(Slice(m, off, off + |enc|)) == Some(name)
  {
    SliceWithin(m, off, off + |enc|);
  }

  /** The two parts after a prefix, sliced back out. */
  lemma SlicesAfter(hd: seq<byte>, d: seq<byte>, u: seq<byte>)
    ensures (hd + (d + u))[|hd|..|hd| + |d|] == d
    ensures (hd + (d + u))[|hd| + |d|..|hd| + |d| + |u|] == u
  {
    var m := hd + (d + u);
    assert m[|hd|..] == d + u;
  }

  /** The header fields `ReadAuthenticate` reads, found unchanged in the
      whole message. */
  lemma HeaderFieldsKept(hd: seq<byte>, rest: seq<byte>, dl: nat, ul: nat)
    requires NameFields(hd, dl, ul)
    ensures ReadU16(hd + rest, 28) == Some(dl) && ReadU32(hd + rest, 32) == Some(64)
    ensures ReadU16(hd + rest, 36) == Some(ul) && ReadU32(hd + rest, 40) == Some(64 + dl)
  {
    ReadsInPrefix(hd, rest, 28);
    ReadsInPrefix(hd, rest, 32);
    ReadsInPrefix(hd, rest, 36);
    ReadsInPrefix(hd, rest, 40);
  }

  /** The identity read from a header followed by the two encoded names. */
  lemma ReadAuthenticateParts(hd: seq<byte>, d: seq<byte>, u: seq<byte>, domain: string, user: string)
    requires NameFields(hd, |d|, |u|)
    requires Utf16.Decode(d) == Some(domain) && Utf16.Decode(u) == Some(user)
    ensures ReadAuthenticate(hd + (d + u)) == Some(NtlmUser(user, domain, "CN=" + user))
  {
    var m := hd + (d + u);
    HeaderFieldsKept(hd, d + u, |d|, |u|);
    SlicesAfter(hd, d, u);
    NameAt(m, 64, d, domain);
    NameAt(m, 64 + |d|, u, user);
    ReadAuthenticateFields(m, |d|, 64, |u|, 64 + |d|, domain, user);
  }

  /** The names read from a type 3 message are the ones it carries. */
  lemma ReadAuthenticateMessage(domain: string, user: string)
    requires |Utf16.Encode(domain)| < 0x1_0000 && |Utf16.Encode(user)| < 0x1_0000
    ensures ReadAuthenticate(AuthenticateMessage(domain, user)) == Some(NtlmUser(user, domain, "CN=" + user))
  {
    var d := Utf16.Encode(domain);
    var u := Utf16.Encode(user);
    var hd := AuthenticateHeader(|d|, |u|);
    Utf16.DecodeEncode(domain);
    Utf16.DecodeEncode(user);
    ReadAuthenticateParts(hd, d, u, domain, user);
  }

  /** A type 3 message yields the user and domain it carries, with the
      certificate DN `CN=<user>`. */
  lemma AuthenticateYieldsUser(domain: string, user: string)
    requires |Utf16.Encode(domain)| < 0x1_0000 && |Utf16.Encode(user)| < 0x1_0000
    ensures VerifyNtlm("NTLM " + Base64.Encode(AuthenticateMessage(domain, user))) ==
            Some(NtlmUser(user, domain, "CN=" + user))
  {
    var d := Utf16.Encode(domain);
    var u := Utf16.Encode(user);
    var hd := AuthenticateHeader(|d|, |u|);
    var m := AuthenticateMessage(domain, user);
    assert m == hd + (d + u);
    var h := "NTLM " + Base64.Encode(m);
    assert StartsWith(h, "NTLM ");
    assert h[5..] == Base64.Encode(m);
    Base64.DecodeEncode(m);
    assert m[..8] == Signature;
    ReadsInPrefix(hd, d + u, 8);
    ReadAuthenticateMessage(domain, user);
  }
}
