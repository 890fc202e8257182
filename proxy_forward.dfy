/** The rewrite of the client's headers into the backend request in
    `ProxyServer.handle`: the backend's `host`, the identity headers under
    the configured names, the `X-Forwarded-*` pair, the removal of four
    hop-by-hop names and the `connection` choice for plain HTTP and for
    WebSocket upgrades. */
module ProxyForward {
  import opened Base
  import opened Text
  import opened ODict
  import opened ProxyConfig
  import opened HttpMessage
  import opened ProxyAuth

  /** The names popped from the backend request. */
  const HopHeaders: seq<string> := ["keep-alive", "upgrade", "proxy-authorization", "authorization"]

  /** `f"{backend.host}:{backend.port}"` */
  function HostPort(backend: BackendConfig): string
  {
    backend.host + ":" + IntToString(backend.port)
  }

  /** A WebSocket backend and an `upgrade` header mentioning `websocket` in
      any case. */
  predicate IsWebSocket(backend: BackendConfig, headers: Headers)
  {
    backend.websocket && Contains(Lower(GetOr(headers, "upgrade", "")), "websocket")
  }

  /** The value under key `k` after `host` and, for a user, the identity
      and `X-Forwarded-*` headers are written: the last write wins. */
  function Injected(config: Config, headers: Headers, backend: BackendConfig, user: Option<ProxyUser>,
                    clientAddr: string, k: string): Option<string>
  {
    if user.Some? && k == "X-Forwarded-Proto" then Some("https")
    else if user.Some? && k == "X-Forwarded-For" then Some(clientAddr)
    else if user.Some? && user.value.certDn != "" && k == config.headerCertDn then Some(user.value.certDn)
    else if user.Some? && k == config.headerAuthMethod then Some(user.value.authMethod)
    else if user.Some? && k == config.headerCertCn then Some(user.value.cn)
    else if k == "host" then Some(HostPort(backend))
    else Get(headers, k)
  }

  /** The value the backend request carries under key `k`: the hop-by-hop
      names are gone, `connection` is `close` unless the request is a
      WebSocket upgrade, whose upgrade headers are copied from the client. */
  function Forwarded(config: Config, headers: Headers, backend: BackendConfig, user: Option<ProxyUser>,
                     clientAddr: string, k: string): Option<string>
  {
    var ws := IsWebSocket(backend, headers);
    if k == "connection" then Some(if ws then GetOr(headers, "connection", "") else "close")
    else if ws && k == "upgrade" then Some(GetOr(headers, "upgrade", ""))
    else if ws && (k == "sec-websocket-key" || k == "sec-websocket-version") && HasKey(headers, k) then Get(headers, k)
    else if k in HopHeaders then None
    else Injected(config, headers, backend, user, clientAddr, k)
  }

  /** `d[k] = v` on a dictionary, with what it does to lookups. */
  method Assign(d: Headers, k: string, v: string) returns (r: Headers)
    requires DistinctKeys(d)
    ensures DistinctKeys(r)
    ensures forall k' :: Get(r, k') == (if k' == k then Some(v) else Get(d, k'))
  {
    r := Set(d, k, v);
    SetProps(d, k, v);
  }

  /** The first edits: the backend's `host`, then, for a user, the
      identity headers and the `X-Forwarded-*` pair. */
  method InjectIdentity(config: Config, headers: Headers, backend: BackendConfig,
                        user: Option<ProxyUser>, clientAddr: string) returns (b: Headers)
    requires DistinctKeys(headers)
    ensures DistinctKeys(b)
    ensures forall k :: Get(b, k) == Injected(config, headers, backend, user, clientAddr, k)
  {
    b := Assign(headers, "host", HostPort(backend));
    if user.Some? {
      b := Assign(b, config.headerCertCn, user.value.cn);
      b := Assign(b, config.headerAuthMethod, user.value.authMethod);
      if user.value.certDn != "" {
        b := Assign(b, config.headerCertDn, user.value.certDn);
      }
      b := Assign(b, "X-Forwarded-For", clientAddr);
      b := Assign(b, "X-Forwarded-Proto", "https");
    }
  }

  /** `for h in [...]: bheaders.pop(h, None)` */
  method DropHopHeaders(d: Headers) returns (b: Headers)
    requires DistinctKeys(d)
    ensures DistinctKeys(b)
    ensures forall k :: Get(b, k) == (if k in HopHeaders then None else Get(d, k))
  {
    b := d;
    var i := 0;
    while i < |HopHeaders|
      invariant 0 <= i <= |HopHeaders|
      invariant DistinctKeys(b)
      invariant forall k :: Get(b, k) == (if k in HopHeaders[..i] then None else Get(d, k))
    {
      RemoveProps(b, HopHeaders[i]);
      assert HopHeaders[..i + 1] == HopHeaders[..i] + [HopHeaders[i]];
      b := Remove(b, HopHeaders[i]);
      i := i + 1;
    }
    assert HopHeaders[..i] == HopHeaders;
  }

  /** The `connection` choice: `close` for plain HTTP; for a WebSocket
      upgrade the client's `upgrade`, `connection` and, when sent, its
      `sec-websocket-key` and `sec-websocket-version`. */
  method ChooseConnection(d: Headers, headers: Headers, isWs: bool) returns (b: Headers)
    requires DistinctKeys(d)
    ensures DistinctKeys(b)
    ensures forall k :: Get(b, k) ==
                (if k == "connection" then Some(if isWs then GetOr(headers, "connection", "") else "close")
                 else if isWs && k == "upgrade" then Some(GetOr(headers, "upgrade", ""))
                 else if isWs && (k == "sec-websocket-key" || k == "sec-websocket-version") && HasKey(headers, k)
                 then Get(headers, k)
                 else Get(d, k))
  {
    if !isWs {
      b := Assign(d, "connection", "close");
    } else {
      b := Assign(d, "upgrade", GetOr(headers, "upgrade", ""));
      b := Assign(b, "connection", GetOr(headers, "connection", ""));
      if HasKey(headers, "sec-websocket-key") {
        b := Assign(b, "sec-websocket-key", Get(headers, "sec-websocket-key").value);
      }
      if HasKey(headers, "sec-websocket-version") {
        b := Assign(b, "sec-websocket-version", Get(headers, "sec-websocket-version").value);
      }
    }
  }

  /** The header rewrite as written: identity headers are injected under
      the configured names only, so client-sent headers that differ from
      them in case pass through. */
  method RewriteHeadersAsWritten(config: Config, headers: Headers, backend: BackendConfig,
                                 user: Option<ProxyUser>, clientAddr: string) returns (b: Headers)
    requires DistinctKeys(headers)
    ensures DistinctKeys(b)
    ensures forall k :: Get(b, k) == Forwarded(config, headers, backend, user, clientAddr, k)
  {
    b := InjectIdentity(config, headers, backend, user, clientAddr);
    var isWs := IsWebSocket(backend, headers);
    b := DropHopHeaders(b);
    b := ChooseConnection(b, headers, isWs);
  }

  /** The names the rewrite itself writes or removes. */
  predicate ReservedName(k: string)
  {
    k in HopHeaders || k in ["connection", "host", "sec-websocket-key", "sec-websocket-version", "X-Forwarded-For", "X-Forwarded-Proto"]
  }

  /** Hop-by-hop headers never reach the backend, except `upgrade` on a
      WebSocket upgrade; plain requests always carry `connection: close`;
      the backend's address replaces the client's `host`. */
  lemma ForwardedHopHeaders(config: Config, headers: Headers, backend: BackendConfig, user: Option<ProxyUser>, clientAddr: string)
    ensures forall k :: k in HopHeaders && !(IsWebSocket(backend, headers) && k == "upgrade") ==>
      Forwarded(config, headers, backend, user, clientAddr, k).None?
    ensures !IsWebSocket(backend, headers) ==> Forwarded(config, headers, backend, user, clientAddr, "connection") == Some("close")
    ensures IsWebSocket(backend, headers) ==>
      Forwarded(config, headers, backend, user, clientAddr, "upgrade") == Get(headers, "upgrade") &&
      Forwarded(config, headers, backend, user, clientAddr, "connection") == Some(GetOr(headers, "connection", ""))
    ensures !(user.Some? && ReservedOrAuth(config, "host")) ==>
      Forwarded(config, headers, backend, user, clientAddr, "host") == Some(HostPort(backend))
  {
    if IsWebSocket(backend, headers) {
      assert Contains(Lower(GetOr(headers, "upgrade", "")), "websocket");
      assert GetOr(headers, "upgrade", "") != "";
    }
  }

  /** `k` is one of the configured identity-header names. */
  predicate ReservedOrAuth(config: Config, k: string)
  {
    k == config.headerCertCn || k == config.headerCertDn || k == config.headerAuthMethod
  }

  /** With a user, its CN and method are forwarded under the configured
      names (when those names are not ones the rewrite reserves). */
  lemma ForwardedIdentity(config: Config, headers: Headers, backend: BackendConfig, u: ProxyUser, clientAddr: string)
    requires !ReservedName(config.headerCertCn) && !ReservedName(config.headerAuthMethod)
    requires config.headerCertCn != config.headerAuthMethod && config.headerCertCn != config.headerCertDn
    ensures Forwarded(config, headers, backend, Some(u), clientAddr, config.headerCertCn) == Some(u.cn)
    ensures config.headerAuthMethod != config.headerCertDn ==>
      Forwarded(config, headers, backend, Some(u), clientAddr, config.headerAuthMethod) == Some(u.authMethod)
  {
  }

  /** Every header the rewrite neither writes nor removes is forwarded as
      the client sent it. */
  lemma ForwardedUntouched(config: Config, headers: Headers, backend: BackendConfig, user: Option<ProxyUser>, clientAddr: string, k: string)
    requires !ReservedName(k) && !ReservedOrAuth(config, k)
    ensures Forwarded(config, headers, backend, user, clientAddr, k) == Get(headers, k)
  {
  }

  /** The flaw: parsed header names are lower-case, the injected ones keep
      the configured case, so a client-sent `x-client-cert-cn` reaches the
      backend. On a backend without authentication it is the only identity
      header; on one with it, it sits beside the real one. */
  lemma SpoofedIdentityForwarded(headers: Headers, backend: BackendConfig, user: Option<ProxyUser>, clientAddr: string, forged: string)
    requires Get(headers, "x-client-cert-cn") == Some(forged)
    ensures var config := DefaultConfig([]);
      Forwarded(config, headers, backend, user, clientAddr, "x-client-cert-cn") == Some(forged) &&
      (user.None? ==> Forwarded(config, headers, backend, user, clientAddr, config.headerCertCn) == Get(headers, config.headerCertCn)) &&
      (user.Some? ==> Forwarded(config, headers, backend, user, clientAddr, config.headerCertCn) == Some(user.value.cn))
  {
  }

  /** The headers without every entry whose name matches one of the
      configured identity names in any case. */
  function WithoutIdentity(config: Config, h: Headers): (r: Headers)
  {
    if h == [] then []
    else
      var rest := WithoutIdentity(config, h[..|h| - 1]);
      if IdentityName(config, h[|h| - 1].0) then rest else rest + [h[|h| - 1]]
  }

  /** `k` equals a configured identity-header name up to ASCII case. */
  predicate IdentityName(config: Config, k: string)
  {
    var l := Lower(k);
    l == Lower(config.headerCertCn) || l == Lower(config.headerCertDn) || l == Lower(config.headerAuthMethod)
  }

  /** Filtering keeps the other entries, in order, and drops the identity
      names entirely. */
  lemma {:induction false} WithoutIdentityProps(config: Config, h: Headers)
    requires DistinctKeys(h)
    ensures DistinctKeys(WithoutIdentity(config, h))
    ensures forall k :: Get(WithoutIdentity(config, h), k) == (if IdentityName(config, k) then None else Get(h, k))
    decreases |h|
  {
    if h != [] {
      var init := h[..|h| - 1];
      var last := h[|h| - 1];
      var rest := WithoutIdentity(config, init);
      assert DistinctKeys(init);
      WithoutIdentityProps(config, init);
      forall k ensures Get(h, k) == (if k == last.0 then Some(last.1) else Get(init, k)) {
        if k == last.0 {
          IndexOfKeyAt(h, k, |h| - 1);
        } else {
          SetAppend(init, last, k);
        }
      }
      if !IdentityName(config, last.0) {
        assert !HasKey(rest, last.0);
        SetProps(rest, last.0, last.1);
        assert Set(rest, last.0, last.1) == rest + [last];
      }
    }
  }

  /** Appending a different key does not change a lookup. */
  lemma SetAppend(init: Headers, last: (string, string), k: string)
    requires k != last.0
    ensures Get(init + [last], k) == Get(init, k)
  {
    var a := IndexOfKey(init, k);
    if a.Some? {
      IndexOfKeyAt(init + [last], k, a.value);
    } else {
      IndexOfKeyAbsent(init + [last], k);
    }
  }

  /** The corrected rewrite: client-sent headers matching a configured
      identity name in any case are dropped before the rewrite. */
  method RewriteHeaders(config: Config, headers: Headers, backend: BackendConfig,
                        user: Option<ProxyUser>, clientAddr: string) returns (b: Headers)
    requires DistinctKeys(headers)
    ensures DistinctKeys(b)
    ensures forall k :: Get(b, k) == Forwarded(config, WithoutIdentity(config, headers), backend, user, clientAddr, k)
  {
    var clean: Headers := [];
    var i := 0;
    while i < |headers|
      invariant 0 <= i <= |headers|
      invariant clean == WithoutIdentity(config, headers[..i])
    {
      assert headers[..i + 1][..i] == headers[..i];
      if !IdentityName(config, headers[i].0) {
        clean := clean + [headers[i]];
      }
      i := i + 1;
    }
    assert headers[..i] == headers;
    WithoutIdentityProps(config, headers);
    b := RewriteHeadersAsWritten(config, clean, backend, user, clientAddr);
  }

  /** With the correction, the only header reaching the backend whose name
      matches the configured CN header in any case is the injected one,
      carrying the authenticated user's CN, and only when there is a user. */
  lemma IdentityNotSpoofable(config: Config, headers: Headers, backend: BackendConfig, user: Option<ProxyUser>,
                             clientAddr: string, k: string)
    requires DistinctKeys(headers)
    requires !ReservedName(k) && Lower(k) == Lower(config.headerCertCn)
    requires Lower(config.headerCertCn) != Lower(config.headerCertDn)
    requires Lower(config.headerCertCn) != Lower(config.headerAuthMethod)
    ensures Forwarded(config, WithoutIdentity(config, headers), backend, user, clientAddr, k) ==
      (if user.Some? && k == config.headerCertCn then Some(user.value.cn) else None)
  {
    WithoutIdentityProps(config, headers);
    assert IdentityName(config, k);
  }
}
