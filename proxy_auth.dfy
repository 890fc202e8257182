/** The proxy's `AuthManager` session table and the authentication ladder of
    `ProxyServer.handle`, lifted into a decision whose I/O results (the
    client certificate's names, the session lookup, the challenge bytes) are
    inputs. */
module ProxyAuth {
  import opened Base
  import opened Text
  import opened ODict
  import opened ProxyConfig
  import opened HttpMessage
  import Ntlm
  import Base64
  import Utf16

  /** The user dictionary handed from authentication to the header rewrite. */
  datatype ProxyUser = ProxyUser(authMethod: string, cn: string, certDn: string, domain: string)

  /** A session-table entry: the user and its creation time (`created`). */
  datatype Session = Session(user: ProxyUser, created: int)

  /** A session is served while strictly younger than the timeout. */
  predicate Alive(s: Session, now: int, timeout: int)
  {
    now - s.created < timeout
  }

  class AuthManager {
    const config: Config
    var sessions: map<string, Session>

    constructor(config: Config)
      ensures this.config == config && sessions == map[]
    {
      this.config := config;
      sessions := map[];
    }

    /** `create_session(user)` with the random session id `sid` and the
        clock reading `now` as inputs: exactly one entry is written. */
    method CreateSession(user: ProxyUser, sid: string, now: int) returns (r: string)
      modifies this
      ensures r == sid
      ensures sessions == old(sessions)[sid := Session(user, now)]
    {
      sessions := sessions[sid := Session(user, now)];
      r := sid;
    }

    /** `get_session(sid)` at clock reading `now`: the entry when it exists
        and is alive; otherwise nothing, and the entry (if any) is dropped. */
    method GetSession(sid: string, now: int) returns (r: Option<Session>)
      modifies this
      ensures r == SessionLookup(old(sessions), sid, now, config.sessionTimeout)
      ensures r.Some? ==> sessions == old(sessions)
      ensures r.None? ==> sessions == old(sessions) - {sid}
    {
      if sid in sessions && Alive(sessions[sid], now, config.sessionTimeout) {
        return Some(sessions[sid]);
      }
      if sid in sessions {
        sessions := sessions - {sid};
      }
      r := None;
    }
  }

  /** What `get_session(sid)` finds at clock reading `now`. */
  function SessionLookup(sessions: map<string, Session>, sid: string, now: int, timeout: int): Option<Session>
  {
    if sid in sessions && Alive(sessions[sid], now, timeout) then Some(sessions[sid]) else None
  }

  /** A session is found exactly while younger than the timeout: found at
      `now`, it is found at every earlier reading since its creation; not
      found at `now`, it is not found later either; and once `get_session`
      has dropped it, it is never found again. */
  lemma LookupWindow(sessions: map<string, Session>, sid: string, now: int, other: int, timeout: int)
    ensures SessionLookup(sessions, sid, now, timeout).Some? <==> sid in sessions && now < sessions[sid].created + timeout
    ensures SessionLookup(sessions, sid, now, timeout).Some? && sessions[sid].created <= other <= now ==>
      SessionLookup(sessions, sid, other, timeout) == SessionLookup(sessions, sid, now, timeout)
    ensures SessionLookup(sessions, sid, now, timeout).None? && now <= other ==> SessionLookup(sessions, sid, other, timeout).None?
    ensures SessionLookup(sessions - {sid}, sid, other, timeout).None?
  {
  }

  /** A session just created is found, with its user, until it is
      `timeout` old. */
  lemma CreatedFound(sessions: map<string, Session>, sid: string, user: ProxyUser, now: int, later: int, timeout: int)
    requires now <= later < now + timeout
    ensures SessionLookup(sessions[sid := Session(user, now)], sid, later, timeout) == Some(Session(user, now))
  {
  }

  /** `extract_cert_user`: a smartcard user when the certificate yields a
      non-empty CN (the certificate's names are inputs; `cn == ""` stands
      for no certificate or no CN). */
  function CertUser(config: Config, cn: string, certDn: string): (r: Option<ProxyUser>)
    ensures r.Some? <==> cn != ""
    ensures r.Some? ==> r.value == ProxyUser("smartcard", cn, certDn, config.defaultDomain)
  {
    if cn == "" then None else Some(ProxyUser("smartcard", cn, certDn, config.defaultDomain))
  }

  const SessionCookie := "proxy_session="

  /** The session id in a cookie part: `c.split('=')[1].strip()`. */
  function CookieValue(c: string): string
    requires '=' in c
  {
    Strip(Before(After(c, '='), '='))
  }

  lemma ContainsHasChar(s: string, sub: string, k: nat)
    requires Contains(s, sub) && k < |sub|
    ensures sub[k] in s
  {
    var j := IndexOf(s, sub).value;
    assert s[j..j + |sub|][k] == s[j + k];
  }

  /** The id from the first `;`-separated part holding `proxy_session=`. */
  function FirstSessionPart(parts: seq<string>): Option<string>
  {
    if parts == [] then None
    else if Contains(parts[0], SessionCookie) then
      ContainsHasChar(parts[0], SessionCookie, 13);
      Some(CookieValue(parts[0]))
    else FirstSessionPart(parts[1..])
  }

  /** The session id named by a `Cookie` header, if any. */
  function CookieSid(cookies: string): Option<string>
  {
    FirstSessionPart(Split(cookies, ";"))
  }

  /** What `handle` does after routing and authentication. */
  datatype Decision =
    | Reply(status: int, reason: string, headers: Headers, body: string)
    | Forward(user: Option<ProxyUser>)
    /** An exception escaped: the connection is closed without a response. */
    | Abort

  /** The 401 asking the client to start NTLM. */
  const NtlmRequest: Decision := Reply(401, "Unauthorized", [("WWW-Authenticate", "NTLM"), ("Connection", "keep-alive")], "")

  function FromNtlm(u: Ntlm.NtlmUser): ProxyUser
  {
    ProxyUser("ntlm", u.cn, u.certDn, u.domain)
  }

  /** The NTLM step: a valid AUTHENTICATE message yields its user; any other
      `NTLM ` header is answered with a CHALLENGE; no such header, with a
      request to start NTLM. */
  function NtlmStep(config: Config, headers: Headers, challenge: seq<byte>): Decision
    requires |challenge| == 8
  {
    var auth := GetOr(headers, "authorization", "");
    if !StartsWith(auth, "NTLM ") then NtlmRequest
    else match Ntlm.VerifyNtlm(auth)
      case Some(u) => Forward(Some(FromNtlm(u)))
      case None =>
        match Ntlm.CreateChallengeAsWritten(challenge, config.ntlmDomain)
        case Some(c) => Reply(401, "Unauthorized", [("WWW-Authenticate", "NTLM " + c), ("Connection", "keep-alive")], "")
        case None => Abort
  }

  /** The ladder of `handle`: route, certificate, session cookie, NTLM.
      `route` is the router's answer, `certCn`/`certDn` the client
      certificate's names, `session` the session lookup and `challenge` the
      random challenge bytes. */
  function Authenticate(config: Config, route: Option<BackendConfig>, certCn: string, certDn: string,
                        headers: Headers, session: string -> Option<ProxyUser>, challenge: seq<byte>): Decision
    requires |challenge| == 8
  {
    match route
    case None => Reply(404, "Not Found", [], "No route")
    case Some(backend) =>
      if !backend.authRequired then Forward(None)
      else
        var cert := CertUser(config, certCn, certDn);
        if cert.Some? then Forward(cert)
        else if !config.ntlmEnabled then Reply(401, "Unauthorized", [], "Auth required")
        else
          var fromSession := match CookieSid(GetOr(headers, "cookie", ""))
            case Some(sid) => session(sid)
            case None => None;
          if fromSession.Some? then Forward(fromSession)
          else NtlmStep(config, headers, challenge)
  }

  /** Nothing reaches a backend that requires authentication without a
      user, and nothing is forwarded without a route. */
  lemma AuthenticateGuards(config: Config, route: Option<BackendConfig>, certCn: string, certDn: string,
                           headers: Headers, session: string -> Option<ProxyUser>, challenge: seq<byte>)
    requires |challenge| == 8
    ensures var d := Authenticate(config, route, certCn, certDn, headers, session, challenge);
      (d.Forward? ==> route.Some? && (route.value.authRequired ==> d.user.Some?)) &&
      (route.None? <==> d == Reply(404, "Not Found", [], "No route")) &&
      (route.Some? && !route.value.authRequired ==> d == Forward(None))
  {
  }

  /** The certificate is tried first: with a CN, cookies and the
      `Authorization` header are not consulted. */
  lemma CertificateFirst(config: Config, backend: BackendConfig, certCn: string, certDn: string,
                         headers: Headers, session: string -> Option<ProxyUser>, challenge: seq<byte>)
    requires |challenge| == 8 && backend.authRequired && certCn != ""
    ensures Authenticate(config, Some(backend), certCn, certDn, headers, session, challenge) ==
      Forward(Some(ProxyUser("smartcard", certCn, certDn, config.defaultDomain)))
  {
  }

  /** Without a certificate and with NTLM disabled the answer is the plain
      401 `Auth required`; with NTLM enabled it never is. */
  lemma NtlmDisabled(config: Config, backend: BackendConfig, certDn: string,
                     headers: Headers, session: string -> Option<ProxyUser>, challenge: seq<byte>)
    requires |challenge| == 8 && backend.authRequired
    ensures !config.ntlmEnabled ==>
      Authenticate(config, Some(backend), "", certDn, headers, session, challenge) == Reply(401, "Unauthorized", [], "Auth required")
    ensures config.ntlmEnabled ==>
      Authenticate(config, Some(backend), "", certDn, headers, session, challenge) != Reply(401, "Unauthorized", [], "Auth required")
  {
  }

  /** A live session named by the cookie is used before any NTLM header. */
  lemma SessionBeforeNtlm(config: Config, backend: BackendConfig, certDn: string, headers: Headers,
                          session: string -> Option<ProxyUser>, challenge: seq<byte>, sid: string)
    requires |challenge| == 8 && backend.authRequired && config.ntlmEnabled
    requires CookieSid(GetOr(headers, "cookie", "")) == Some(sid) && session(sid).Some?
    ensures Authenticate(config, Some(backend), "", certDn, headers, session, challenge) == Forward(session(sid))
  {
  }

  /** The NTLM outcomes: no `NTLM ` header asks for NTLM; a valid type 3
      message yields its user; anything else gets a challenge whose
      `WWW-Authenticate` value is `NTLM ` and the base64 CHALLENGE. */
  lemma NtlmOutcomes(config: Config, headers: Headers, challenge: seq<byte>)
    requires |challenge| == 8
    ensures var auth := GetOr(headers, "authorization", "");
      var d := NtlmStep(config, headers, challenge);
      (!StartsWith(auth, "NTLM ") ==> d == NtlmRequest) &&
      (Ntlm.VerifyNtlm(auth).Some? ==> d == Forward(Some(FromNtlm(Ntlm.VerifyNtlm(auth).value)))) &&
      (StartsWith(auth, "NTLM ") && Ntlm.VerifyNtlm(auth).None? && Ntlm.CreateChallengeAsWritten(challenge, config.ntlmDomain).Some? ==>
        d.Reply? && d.status == 401 && Get(d.headers, "WWW-Authenticate") == Some("NTLM " + Ntlm.CreateChallengeAsWritten(challenge, config.ntlmDomain).value)) &&
      (StartsWith(auth, "NTLM ") && Ntlm.VerifyNtlm(auth).None? && Ntlm.CreateChallengeAsWritten(challenge, config.ntlmDomain).None? ==>
        d == Abort)
  {
    var auth := GetOr(headers, "authorization", "");
    if Ntlm.VerifyNtlm(auth).Some? {
      assert StartsWith(auth, "NTLM ");
    }
  }

  /** A client sending a well-formed AUTHENTICATE message is let through as
      the user it names. */
  lemma NtlmAuthenticates(config: Config, backend: BackendConfig, certDn: string, headers: Headers,
                          session: string -> Option<ProxyUser>, challenge: seq<byte>, domain: string, user: string)
    requires |challenge| == 8 && backend.authRequired && config.ntlmEnabled
    requires CookieSid(GetOr(headers, "cookie", "")).None?
    requires |Utf16.Encode(domain)| < 0x1_0000 && |Utf16.Encode(user)| < 0x1_0000
    requires GetOr(headers, "authorization", "") == "NTLM " + Base64.Encode(Ntlm.AuthenticateMessage(domain, user))
    ensures Authenticate(config, Some(backend), "", certDn, headers, session, challenge) ==
      Forward(Some(ProxyUser("ntlm", user, "CN=" + user, domain)))
  {
    Ntlm.AuthenticateYieldsUser(domain, user);
  }

  /** A cookie part `<lead>proxy_session=<sid>` after parts without a session
      names `sid`, trimmed. */
  lemma {:induction false} CookieSidFinds(pre: seq<string>, lead: string, sid: string, post: seq<string>)
    requires forall k :: 0 <= k < |pre| ==> ';' !in pre[k] && !Contains(pre[k], SessionCookie)
    requires forall k :: 0 <= k < |post| ==> ';' !in post[k]
    requires ';' !in lead && '=' !in lead && ';' !in sid && '=' !in sid
    ensures CookieSid(Join(pre + [lead + SessionCookie + sid] + post, ";")) == Some(Strip(sid))
  {
    var part := lead + SessionCookie + sid;
    var tail := [part] + post;
    var parts := pre + tail;
    assert pre + [part] + post == parts;
    forall k | 0 <= k < |parts| ensures ";"[0] !in parts[k] {
      if k < |pre| {
        assert parts[k] == pre[k];
      } else if k == |pre| {
        assert parts[k] == part;
      } else {
        assert parts[k] == post[k - |pre| - 1];
      }
    }
    SplitJoin(parts, ";");
    CookiePart(lead, sid);
    FirstSessionPartAfter(pre, tail);
    assert FirstSessionPart(tail) == Some(Strip(sid));
  }

  lemma CookiePart(lead: string, sid: string)
    requires '=' !in lead && '=' !in sid
    ensures Contains(lead + SessionCookie + sid, SessionCookie)
    ensures '=' in lead + SessionCookie + sid && CookieValue(lead + SessionCookie + sid) == Strip(sid)
  {
    var c := lead + SessionCookie + sid;
    assert OccursAt(c, SessionCookie, |lead|) by {
      assert c[|lead|..|lead| + |SessionCookie|] == SessionCookie;
    }
    assert c[|lead| + 13] == '=';
    var name := lead + "proxy_session";
    assert c == name + "=" + sid;
    assert '=' !in name;
    assert FindChar(c, '=') == Some(|name|) by {
      assert c[..|name|] == name;
    }
    assert After(c, '=') == sid by {
      assert Before(c, '=') == name;
    }
    assert Before(sid, '=') == sid by {
      assert FindChar(sid, '=') == None;
    }
  }

  lemma {:induction false} FirstSessionPartAfter(pre: seq<string>, rest: seq<string>)
    requires forall k :: 0 <= k < |pre| ==> !Contains(pre[k], SessionCookie)
    ensures FirstSessionPart(pre + rest) == FirstSessionPart(rest)
  {
    if pre != [] {
      assert (pre + rest)[1..] == pre[1..] + rest;
      FirstSessionPartAfter(pre[1..], rest);
    } else {
      assert pre + rest == rest;
    }
  }
}
