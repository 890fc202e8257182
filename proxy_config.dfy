/** The proxy's configuration records and the `${VAR}` / `$VAR` expansion
    applied to path settings while loading them. The YAML loading itself is
    not part of this model. */
module ProxyConfig {
  import opened Base
  import opened Text
  import opened ODict

  /** One backend service (`BackendConfig`). */
  datatype BackendConfig = BackendConfig(
    name: string,
    host: string,
    port: int,
    pathPrefix: string,
    stripPrefix: bool,
    websocket: bool,
    timeout: int,
    authRequired: bool)

  /** The settings of `ProxyConfig` that routing and authentication read. */
  datatype Config = Config(
    headerCertCn: string,
    headerCertDn: string,
    headerAuthMethod: string,
    defaultDomain: string,
    ntlmEnabled: bool,
    ntlmDomain: string,
    sessionTimeout: int,
    backends: Dict<string, BackendConfig>,
    defaultBackend: string)

  /** The configuration with the source's defaults and the given backends. */
  function DefaultConfig(backends: Dict<string, BackendConfig>): Config
  {
    Config("X-Client-Cert-CN", "X-Client-Cert-DN", "X-Auth-Method", "", true, "", 3600, backends, "")
  }

  /** `os.environ.get(name, whole)` */
  function Lookup(env: map<string, string>, name: string, whole: string): string
  {
    if name in env then env[name] else whole
  }

  /** The first pass of `expand_env_vars`: every `${NAME}` with a non-empty
      NAME free of `}` is replaced, scanning left to right. */
  function ExpandBraced(s: string, env: map<string, string>): string
    decreases |s|
  {
    if s == [] then []
    else if |s| >= 2 && s[0] == '$' && s[1] == '{' then
      match FindChar(s[2..], '}')
      case Some(k) =>
        if k > 0 then Lookup(env, s[2..2 + k], s[..3 + k]) + ExpandBraced(s[3 + k..], env)
        else [s[0]] + ExpandBraced(s[1..], env)
      case None => [s[0]] + ExpandBraced(s[1..], env)
    else [s[0]] + ExpandBraced(s[1..], env)
  }

  predicate IsNameStart(c: char)
  {
    IsAsciiLetter(c) || c == '_'
  }

  predicate IsNameChar(c: char)
  {
    IsNameStart(c) || '0' <= c <= '9'
  }

  /** The length of the longest prefix of `s` made of name characters. */
  function NameLength(s: string): (n: nat)
    ensures n <= |s|
  {
    if s != [] && IsNameChar(s[0]) then 1 + NameLength(s[1..]) else 0
  }

  /** The length of the name after the `$` at the head of `s`: its first
      character and the run of name characters that follows. */
  function BareNameLength(s: string): (n: nat)
    requires |s| >= 2
    ensures 1 <= n && 1 + n <= |s|
  {
    1 + NameLength(s[2..])
  }

  /** The second pass: every `$NAME`, NAME a letter or `_` followed by the
      longest run of letters, digits and `_`, is replaced. */
  function ExpandBare(s: string, env: map<string, string>): string
    decreases |s|
  {
    if s == [] then []
    else if |s| >= 2 && s[0] == '$' && IsNameStart(s[1]) then
      var n := BareNameLength(s);
      Lookup(env, s[1..1 + n], s[..1 + n]) + ExpandBare(s[1 + n..], env)
    else [s[0]] + ExpandBare(s[1..], env)
  }

  /** `expand_env_vars(value)` */
  function ExpandEnvVars(s: string, env: map<string, string>): string
  {
    ExpandBare(ExpandBraced(s, env), env)
  }

  lemma {:induction false} ExpandBracedUnset(s: string, env: map<string, string>)
    requires env == map[]
    ensures ExpandBraced(s, env) == s
    decreases |s|
  {
    if s != [] {
      if |s| >= 2 && s[0] == '$' && s[1] == '{' {
        match FindChar(s[2..], '}')
        case Some(k) =>
          if k > 0 {
            ExpandBracedUnset(s[3 + k..], env);
            assert s == s[..3 + k] + s[3 + k..];
          } else {
            ExpandBracedUnset(s[1..], env);
          }
        case None =>
          ExpandBracedUnset(s[1..], env);
      } else {
        ExpandBracedUnset(s[1..], env);
      }
      assert s == [s[0]] + s[1..];
    }
  }

  lemma {:induction false} ExpandBareUnset(s: string, env: map<string, string>)
    requires env == map[]
    ensures ExpandBare(s, env) == s
    decreases |s|
  {
    if s != [] {
      if |s| >= 2 && s[0] == '$' && IsNameStart(s[1]) {
        var n := BareNameLength(s);
        var head, rest := s[..1 + n], s[1 + n..];
        assert ExpandBare(s, env) == head + ExpandBare(rest, env);
        ExpandBareUnset(rest, env);
        assert s == head + rest;
      } else {
        var rest := s[1..];
        assert ExpandBare(s, env) == [s[0]] + ExpandBare(rest, env);
        ExpandBareUnset(rest, env);
        assert s == [s[0]] + rest;
      }
    }
  }

  /** With no variable set, every reference is kept as written. */
  lemma ExpandEnvVarsUnset(s: string)
    ensures ExpandEnvVars(s, map[]) == s
  {
    ExpandBracedUnset(s, map[]);
    ExpandBareUnset(s, map[]);
  }

  lemma {:induction false} ExpandBracedNoDollar(s: string, env: map<string, string>)
    requires '$' !in s
    ensures ExpandBraced(s, env) == s
    decreases |s|
  {
    if s != [] {
      ExpandBracedNoDollar(s[1..], env);
      assert s == [s[0]] + s[1..];
    }
  }

  lemma {:induction false} ExpandBareNoDollar(s: string, env: map<string, string>)
    requires '$' !in s
    ensures ExpandBare(s, env) == s
    decreases |s|
  {
    if s != [] {
      ExpandBareNoDollar(s[1..], env);
      assert s == [s[0]] + s[1..];
    }
  }

  /** A value without `$` is left alone, whatever the environment. */
  lemma ExpandEnvVarsNoDollar(s: string, env: map<string, string>)
    requires '$' !in s
    ensures ExpandEnvVars(s, env) == s
  {
    ExpandBracedNoDollar(s, env);
    ExpandBareNoDollar(s, env);
  }

  /** `${NAME}` for a set variable becomes its value (when the value holds
      no further `$`); for an unset one it stays as written. */
  lemma ExpandBracedReference(name: string, env: map<string, string>)
    requires name != "" && '}' !in name && '$' !in name
    requires name in env ==> '$' !in env[name]
    ensures ExpandEnvVars("${" + name + "}", env) == (if name in env then env[name] else "${" + name + "}")
  {
    var s := "${" + name + "}";
    assert s[2..] == name + "}";
    assert (name + "}")[..|name|] == name;
    assert FindChar(s[2..], '}') == Some(|name|);
    assert s[2..2 + |name|] == name;
    assert s[..3 + |name|] == s;
    assert s[3 + |name|..] == [];
    assert ExpandBraced(s, env) == Lookup(env, name, s);
    if name in env {
      ExpandBareNoDollar(env[name], env);
    } else {
      ExpandBareKeepsUnset(name, env);
    }
  }

  /** An unset `${NAME}` survives the second pass: the `$` is followed by
      `{`, not by a name. */
  lemma ExpandBareKeepsUnset(name: string, env: map<string, string>)
    requires '}' !in name && '$' !in name
    ensures ExpandBare("${" + name + "}", env) == "${" + name + "}"
  {
    var s := "${" + name + "}";
    assert '$' !in s[1..];
    ExpandBareNoDollar(s[1..], env);
    assert s == [s[0]] + s[1..];
  }

  /** `$NAME` followed by a non-name character, for a set variable whose
      value holds no `$`, becomes that value. */
  lemma ExpandBareReference(name: string, rest: string, env: map<string, string>)
    requires name != "" && IsNameStart(name[0]) && forall i :: 0 <= i < |name| ==> IsNameChar(name[i])
    requires rest == [] || !IsNameChar(rest[0])
    requires '$' !in rest && name in env && '$' !in env[name]
    ensures ExpandEnvVars("$" + name + rest, env) == env[name] + rest
  {
    var s := "$" + name + rest;
    assert '$' !in name + rest by {
      assert forall i :: 0 <= i < |name| ==> name[i] != '$';
    }
    assert s == "$" + (name + rest);
    ExpandBracedFirstChar(name + rest, env);
    NameLengthOf(name, rest);
    assert s[2..] == name[1..] + rest;
    assert s[1..1 + |name|] == name;
    assert s[1 + |name|..] == rest;
    ExpandBareNoDollar(rest, env);
  }

  lemma ExpandBracedFirstChar(t: string, env: map<string, string>)
    requires '$' !in t && (t == [] || t[0] != '{')
    ensures ExpandBraced("$" + t, env) == "$" + t
  {
    var s := "$" + t;
    assert s[1..] == t;
    ExpandBracedNoDollar(t, env);
  }

  lemma {:induction false} NameLengthOf(name: string, rest: string)
    requires name != [] && forall i :: 0 <= i < |name| ==> IsNameChar(name[i])
    requires rest == [] || !IsNameChar(rest[0])
    ensures 1 + NameLength(name[1..] + rest) == |name|
    decreases |name|
  {
    if |name| > 1 {
      assert (name[1..] + rest)[1..] == name[2..] + rest;
      NameLengthOf(name[1..], rest);
    } else {
      assert name[1..] + rest == rest;
    }
  }
}
