/** The controller's authentication and authorisation dependencies:
    identity normalisation, the identity-header precedence and database
    merge, token precedence, the role gates, the approver JWT checks and the
    one-time execution token. The database tables, the clock and the JWT
    verifier are parameters. */
module Deps {
  import opened Base
  import opened Text
  import opened ODict

  // ---------------------------------------------------------------------
  // Identity normalisation
  // ---------------------------------------------------------------------

  /** Surrounded by a matching pair of `"` or `'`. */
  predicate Quoted(s: string)
  {
    |s| >= 1 && ((s[0] == '"' && s[|s| - 1] == '"') || (s[0] == '\'' && s[|s| - 1] == '\''))
  }

  /** `s[1:-1].strip()` when quoted, else `s`. */
  function Unquote(s: string): string
  {
    if Quoted(s) then Strip(Slice(s, 1, -1)) else s
  }

  /** The index of the last `c` in `s`. */
  function LastFind(s: string, c: char): (r: Option<nat>)
    ensures r.Some? ==> r.value < |s| && s[r.value] == c && forall i :: r.value < i < |s| ==> s[i] != c
    ensures r.None? ==> forall i :: 0 <= i < |s| ==> s[i] != c
  {
    if s == [] then None
    else if s[|s| - 1] == c then Some(|s| - 1)
    else LastFind(s[..|s| - 1], c)
  }

  /** The regular expression `\s*\([^)]*\)\s*$` can match starting with
      the `(` at `p` of a string with no trailing whitespace. */
  predicate ParenGroupAt(s: string, p: int)
  {
    0 <= p < |s| - 1 && s[p] == '(' && s[|s| - 1] == ')' && forall i :: p < i < |s| - 1 ==> s[i] != ')'
  }

  /** Where a group may open: after the last `)` before the final one. */
  function GroupStart(s: string): nat
    requires s != []
  {
    match LastFind(s[..|s| - 1], ')') case None => 0 case Some(q) => q + 1
  }

  /** `re.sub(r"\s*\([^)]*\)\s*$", "", s)` on a string without trailing
      whitespace: the leftmost parenthesised group ending the string is
      removed with the whitespace before it. */
  function DropParenSuffix(s: string): string
  {
    if s == [] || s[|s| - 1] != ')' then s
    else
      var start := GroupStart(s);
      match FindChar(s[start..|s| - 1], '(')
      case None => s
      case Some(p) => RStrip(s[..start + p])
  }

  /** A group opens exactly at a `(` at or after `GroupStart`. */
  lemma GroupStartBounds(s: string, p: int)
    requires s != [] && s[|s| - 1] == ')' && 0 <= p < |s| - 1
    ensures ParenGroupAt(s, p) <==> (GroupStart(s) <= p && s[p] == '(')
  {
    var body := s[..|s| - 1];
    match LastFind(body, ')')
    case None =>
    case Some(q) =>
      if p < q {
        assert s[q] == ')';
      }
  }

  /** Without a `(` after `GroupStart`, no group ends the string. */
  lemma NoOpenNoGroup(s: string)
    requires s != [] && s[|s| - 1] == ')' && FindChar(s[GroupStart(s)..|s| - 1], '(') == None
    ensures forall p :: !ParenGroupAt(s, p)
  {
    var start := GroupStart(s);
    var mid := s[start..|s| - 1];
    forall p ensures !ParenGroupAt(s, p) {
      if 0 <= p < |s| - 1 {
        GroupStartBounds(s, p);
        if start <= p {
          assert mid[p - start] == s[p];
        }
      }
    }
  }

  /** The first `(` after `GroupStart` opens the earliest group. */
  lemma FirstOpenFirstGroup(s: string, k: nat)
    requires s != [] && s[|s| - 1] == ')' && FindChar(s[GroupStart(s)..|s| - 1], '(') == Some(k)
    ensures ParenGroupAt(s, GroupStart(s) + k)
    ensures forall p :: 0 <= p < GroupStart(s) + k ==> !ParenGroupAt(s, p)
  {
    var start := GroupStart(s);
    var mid := s[start..|s| - 1];
    GroupStartBounds(s, start + k);
    forall p | 0 <= p < start + k ensures !ParenGroupAt(s, p) {
      GroupStartBounds(s, p);
      if start <= p {
        assert mid[..k][p - start] == s[p];
      }
    }
  }

  /** The removal is the regular expression's: the earliest `(` from which
      a group runs to the end decides the cut; without one, nothing changes. */
  lemma DropParenSuffixMatches(s: string)
    ensures (forall p :: !ParenGroupAt(s, p)) ==> DropParenSuffix(s) == s
    ensures forall p :: ParenGroupAt(s, p) && (forall p' :: 0 <= p' < p ==> !ParenGroupAt(s, p')) ==>
      DropParenSuffix(s) == RStrip(s[..p])
  {
    if s != [] && s[|s| - 1] == ')' {
      match FindChar(s[GroupStart(s)..|s| - 1], '(')
      case None =>
        NoOpenNoGroup(s);
      case Some(k) =>
        FirstOpenFirstGroup(s, k);
    }
  }

  lemma StripChars(s: string, c: char)
    requires c !in s
    ensures c !in Strip(s)
  {
    assert forall x :: x in LStrip(s) ==> x in s;
    assert forall x :: x in RStrip(LStrip(s)) ==> x in LStrip(s);
  }

  /** The part of a user name after a leading one-letter `X\`, stripped
      (`re.sub(r"^[A-Za-z]\\", "", s).strip()`). */
  function DropLetterPrefix(s: string): (r: string)
    ensures Trimmed(r)
    ensures '@' !in s ==> '@' !in r
  {
    if |s| >= 2 && IsAsciiLetter(s[0]) && s[1] == '\\' then
      assert forall x :: x in s[2..] ==> x in s;
      if '@' !in s then StripChars(s[2..], '@'); Strip(s[2..]) else Strip(s[2..])
    else
      if '@' !in s then StripChars(s, '@'); Strip(s) else Strip(s)
  }

  /** The quotes and a trailing parenthesised remark removed. */
  function Unwrap(raw: string): string
  {
    Strip(DropParenSuffix(Unquote(Strip(raw))))
  }

  /** `DOMAIN\user` becomes `user`. */
  function AfterDomain(s: string): string
  {
    if '\\' in s then Strip(After(s, '\\')) else s
  }

  /** The steps of `normalize_identity` up to the last strip: quotes,
      a trailing parenthesised remark, a `DOMAIN\` prefix, an `@domain`
      suffix and a leftover one-letter `X\` prefix are removed. */
  function NameCore(raw: string): (r: string)
    ensures '@' !in r && Trimmed(r)
  {
    DropLetterPrefix(Before(AfterDomain(Unwrap(raw)), '@'))
  }

  /** `normalize_identity(raw)`: the core name with whitespace runs
      collapsed to one space. */
  function NormalizeIdentity(raw: string): string
  {
    if raw == "" then "" else CollapseSpaces(NameCore(raw))
  }

  /** A normalised name is empty for an empty input, never holds `@`, has
      no whitespace at either end and no two whitespace characters in a
      row. */
  lemma NormalizeIdentityShape(raw: string)
    ensures raw == "" ==> NormalizeIdentity(raw) == ""
    ensures '@' !in NormalizeIdentity(raw)
    ensures Trimmed(NormalizeIdentity(raw))
    ensures NoDoubleSpace(NormalizeIdentity(raw))
  {
    if raw != "" {
      var c := NameCore(raw);
      CollapseChars(c, '@');
      CollapseNoDouble(c);
      if c != [] {
        CollapseLast(c);
      }
    }
  }

  /** A bare user name: trimmed, single spaces only, and none of the
      characters the normalisation acts on. */
  predicate PlainName(u: string)
  {
    u != "" && Trimmed(u) && NoDoubleSpace(u) &&
    (forall i :: 0 <= i < |u| ==> IsSpace(u[i]) ==> u[i] == ' ') &&
    (forall i :: 0 <= i < |u| ==> !Special(u[i]) && u[i] != '@')
  }

  /** The characters that open a quote, a remark or a domain. */
  predicate Special(c: char)
  {
    c == '\\' || c == '(' || c == ')' || c == '"' || c == '\''
  }

  /** A domain or host part that cannot open a quote or a remark. */
  predicate PlainPrefix(d: string)
  {
    d != "" && !IsSpace(d[0]) && forall i :: 0 <= i < |d| ==> !Special(d[i])
  }

  lemma NameFrom(raw: string, u: string)
    requires raw != "" && PlainName(u) && Before(AfterDomain(Unwrap(raw)), '@') == u
    ensures NormalizeIdentity(raw) == u
  {
    StripNoop(u);
    CollapseIdem(u);
  }

  lemma PlainNoAt(u: string)
    requires PlainName(u)
    ensures Before(u, '@') == u
  {
    assert '@' !in u by {
      assert forall i :: 0 <= i < |u| ==> u[i] != '@';
    }
  }

  lemma UnwrapPlain(s: string)
    requires Trimmed(s) && s != [] && s[0] != '"' && s[0] != '\'' && s[|s| - 1] != ')'
    ensures Unwrap(s) == s
  {
    StripNoop(s);
    assert !Quoted(s);
    assert Unquote(s) == s;
    assert DropParenSuffix(s) == s;
  }

  lemma AfterDomainSplit(d: string, u: string)
    requires '\\' !in d && Trimmed(u)
    ensures AfterDomain(d + "\\" + u) == u
  {
    var s := d + "\\" + u;
    assert s == d + ['\\'] + u;
    SplitAtChar(d, '\\', u);
    assert '\\' in s;
    assert After(s, '\\') == u;
    StripNoop(u);
  }

  lemma NoSpecial(s: string)
    requires forall i :: 0 <= i < |s| ==> !Special(s[i])
    ensures '\\' !in s && '(' !in s
  {
    assert forall i :: 0 <= i < |s| ==> s[i] != '\\' && s[i] != '(';
  }

  /** A bare user name is already normal. */
  lemma NormalizePlain(u: string)
    requires PlainName(u)
    ensures NormalizeIdentity(u) == u
  {
    UnwrapPlain(u);
    NoSpecial(u);
    PlainNoAt(u);
    NameFrom(u, u);
  }

  /** `DOMAIN\\user` normalises to `user`. */
  lemma NormalizeDomainUser(d: string, u: string)
    requires PlainPrefix(d) && PlainName(u)
    ensures NormalizeIdentity(d + "\\" + u) == u
  {
    var raw := d + "\\" + u;
    assert raw[|raw| - 1] == u[|u| - 1];
    assert raw[0] == d[0];
    UnwrapPlain(raw);
    DomainUserCore(d, u);
    NameFrom(raw, u);
  }

  /** `user@host` normalises to `user`. */
  lemma NormalizeEmail(u: string, host: string)
    requires PlainName(u) && '\\' !in host
    requires host == [] || (host[|host| - 1] != ')' && !IsSpace(host[|host| - 1]))
    ensures NormalizeIdentity(u + "@" + host) == u
  {
    EmailUnwrap(u, host);
    EmailNoDomain(u, host);
    EmailTail(u, host);
    NameFrom(u + "@" + host, u);
  }

  lemma EmailUnwrap(u: string, host: string)
    requires PlainName(u)
    requires host == [] || (host[|host| - 1] != ')' && !IsSpace(host[|host| - 1]))
    ensures Unwrap(u + "@" + host) == u + "@" + host
  {
    var raw := u + "@" + host;
    assert raw[0] == u[0];
    assert host != [] ==> raw[|raw| - 1] == host[|host| - 1];
    UnwrapPlain(raw);
  }

  lemma EmailNoDomain(u: string, host: string)
    requires PlainName(u) && '\\' !in host
    ensures AfterDomain(u + "@" + host) == u + "@" + host
  {
    NoSpecial(u);
    assert u + "@" + host == u + ['@'] + host;
  }

  lemma EmailTail(u: string, host: string)
    requires PlainName(u)
    ensures Before(u + "@" + host, '@') == u
  {
    assert '@' !in u by {
      assert forall i :: 0 <= i < |u| ==> u[i] != '@';
    }
    assert u + "@" + host == u + ['@'] + host;
    SplitAtChar(u, '@', host);
  }

  /** `DOMAIN\\user (remark)` normalises to `user`: the remark goes first,
      then the domain. */
  lemma NormalizeRemark(d: string, u: string, remark: string)
    requires PlainPrefix(d) && PlainName(u) && ')' !in remark
    ensures NormalizeIdentity(d + "\\" + u + " (" + remark + ")") == u
  {
    RemarkUnwrap(d, u, remark);
    DomainUserCore(d, u);
    NameFrom(d + "\\" + u + " (" + remark + ")", u);
  }

  /** The remark and the surrounding whitespace go, the name stays. */
  lemma RemarkUnwrap(d: string, u: string, remark: string)
    requires PlainPrefix(d) && PlainName(u) && ')' !in remark
    ensures Unwrap(d + "\\" + u + " (" + remark + ")") == d + "\\" + u
  {
    var named := d + "\\" + u;
    assert named[0] == d[0];
    assert named[|named| - 1] == u[|u| - 1];
    assert '(' !in named by {
      assert forall i :: 0 <= i < |named| ==> named[i] == (if i < |d| then d[i] else if i == |d| then '\\' else u[i - |d| - 1]);
    }
    RemarkDropped(named, remark);
    UnwrapRemark(named, remark);
  }

  /** What is left of `DOMAIN\\user` before any `@`: the user. */
  lemma DomainUserCore(d: string, u: string)
    requires PlainPrefix(d) && PlainName(u)
    ensures Before(AfterDomain(d + "\\" + u), '@') == u
  {
    NoSpecial(d);
    AfterDomainSplit(d, u);
    PlainNoAt(u);
  }

  lemma UnwrapRemark(named: string, remark: string)
    requires named != [] && Trimmed(named) && named[0] != '"' && named[0] != '\''
    requires DropParenSuffix(named + " (" + remark + ")") == named
    ensures Unwrap(named + " (" + remark + ")") == named
  {
    var raw := named + " (" + remark + ")";
    assert raw[0] == named[0];
    StripNoop(raw);
    assert !Quoted(raw);
    StripNoop(named);
  }

  /** The remark after a name without parentheses is cut with the space
      before it. */
  lemma RemarkDropped(named: string, remark: string)
    requires named != [] && !IsSpace(named[|named| - 1]) && '(' !in named && ')' !in remark
    ensures DropParenSuffix(named + " (" + remark + ")") == named
  {
    var raw := named + " (" + remark + ")";
    var p := |named| + 1;
    assert ParenGroupAt(raw, p) by {
      assert forall i :: p < i < |raw| - 1 ==> raw[i] == remark[i - p - 1];
    }
    forall p' | 0 <= p' < p ensures !ParenGroupAt(raw, p') {
      assert p' < |named| ==> raw[p'] == named[p'];
    }
    DropParenSuffixMatches(raw);
    assert raw[..p] == named + " ";
    RStripUnique(named + " ", |named|);
    assert (named + " ")[..|named|] == named;
  }

  /** A run of ASCII letters. */
  predicate Word(w: string)
  {
    w != "" && forall i :: 0 <= i < |w| ==> IsAsciiLetter(w[i])
  }

  lemma WordPlain(w: string)
    requires Word(w)
    ensures PlainName(w)
  {
  }

  /** Two words with one space between them form a plain name. */
  lemma WordsPlain(a: string, b: string)
    requires Word(a) && Word(b)
    ensures PlainName(a + " " + b)
  {
    var s := a + " " + b;
    assert forall i :: 0 <= i < |s| ==> s[i] == (if i < |a| then a[i] else if i == |a| then ' ' else b[i - |a| - 1]);
  }

  /** The examples the function documents: `U\\Rajesh Mudiganti (affiliate)`
      becomes `Rajesh Mudiganti`. */
  lemma NormalizeRemarkExample(d: string, first: string, last: string, remark: string)
    requires d == "U" && first == "Rajesh" && last == "Mudiganti" && remark == "affiliate"
    ensures NormalizeIdentity(d + "\\" + (first + " " + last) + " (" + remark + ")") == first + " " + last
  {
    WordsPlain(first, last);
    NormalizeRemark(d, first + " " + last, remark);
  }

  lemma NormalizeDomainExample()
    ensures NormalizeIdentity("DOMAIN\\jsmith") == "jsmith"
  {
    assert "DOMAIN" + "\\" + "jsmith" == "DOMAIN\\jsmith";
    WordPlain("jsmith");
    NormalizeDomainUser("DOMAIN", "jsmith");
  }

  lemma NormalizeEmailExample()
    ensures NormalizeIdentity("jsmith@acme.com") == "jsmith"
  {
    assert "jsmith" + "@" + "acme.com" == "jsmith@acme.com";
    WordPlain("jsmith");
    NormalizeEmail("jsmith", "acme.com");
  }

  // ---------------------------------------------------------------------
  // The runtime user built from proxy headers
  // ---------------------------------------------------------------------

  /** Request headers as the web framework keeps them: name/value pairs
      looked up without regard to ASCII case, first match first. */
  type RequestHeaders = Dict<string, string>

  /** `request.headers.get(name)` */
  function HeaderValue(h: RequestHeaders, name: string): (r: Option<string>)
    ensures r.Some? <==> exists i :: 0 <= i < |h| && Lower(h[i].0) == Lower(name)
    ensures r.Some? ==> exists i :: 0 <= i < |h| && Lower(h[i].0) == Lower(name) && r.value == h[i].1 &&
                                    (forall j :: 0 <= j < i ==> Lower(h[j].0) != Lower(name))
  {
    if h == [] then None
    else if Lower(h[0].0) == Lower(name) then Some(h[0].1)
    else
      var r := HeaderValue(h[1..], name);
      assert forall i :: 1 <= i < |h| ==> h[i] == h[1..][i - 1];
      r
  }

  /** The proxy identity headers, in the order they are consulted. */
  const IdentityHeaders: seq<string> := ["X-Auth-User", "X-Client-Cert-CN", "X-Forwarded-User", "X-Remote-User"]

  /** The first non-empty value among `names`. */
  function FirstPresent(h: RequestHeaders, names: seq<string>): (r: Option<string>)
    ensures r.Some? ==> r.value != "" && exists k :: 0 <= k < |names| && HeaderValue(h, names[k]) == r &&
                                                   (forall j :: 0 <= j < k ==> !Truthy(HeaderValue(h, names[j])))
    ensures r.None? ==> forall k :: 0 <= k < |names| ==> !Truthy(HeaderValue(h, names[k]))
  {
    if names == [] then None
    else if Truthy(HeaderValue(h, names[0])) then HeaderValue(h, names[0])
    else
      var r := FirstPresent(h, names[1..]);
      assert forall k :: 1 <= k < |names| ==> names[k] == names[1..][k - 1];
      r
  }

  /** The raw identity: the first non-empty of `X-Auth-User`,
      `X-Client-Cert-CN`, `X-Forwarded-User`, `X-Remote-User`. */
  function IdentityHeader(h: RequestHeaders): Option<string>
  {
    FirstPresent(h, IdentityHeaders)
  }

  /** One character of ASCII `str.title()`: a letter is upper-cased after a
      non-letter and lower-cased after a letter; other characters stay. */
  function TitleChar(afterLetter: bool, c: char): char
  {
    if !IsAsciiLetter(c) then c else if afterLetter then LowerChar(c) else UpperChar(c)
  }

  function TitleFrom(s: string, afterLetter: bool): (r: string)
    ensures |r| == |s|
  {
    if s == [] then []
    else [TitleChar(afterLetter, s[0])] + TitleFrom(s[1..], IsAsciiLetter(s[0]))
  }

  /** ASCII `str.title()` */
  function Title(s: string): string
  {
    TitleFrom(s, false)
  }

  /** Each character of a title-cased string, by what precedes it. */
  lemma {:induction false} TitleFromChars(s: string, afterLetter: bool)
    ensures forall i :: 0 <= i < |s| ==>
      TitleFrom(s, afterLetter)[i] == TitleChar(if i == 0 then afterLetter else IsAsciiLetter(s[i - 1]), s[i])
    decreases |s|
  {
    if s != [] {
      var r := TitleFrom(s, afterLetter);
      var tail := TitleFrom(s[1..], IsAsciiLetter(s[0]));
      TitleFromChars(s[1..], IsAsciiLetter(s[0]));
      forall i | 1 <= i < |s|
        ensures r[i] == TitleChar(IsAsciiLetter(s[i - 1]), s[i])
      {
        assert r[i] == tail[i - 1] && s[1..][i - 1] == s[i];
        if i > 1 {
          assert s[1..][i - 2] == s[i - 1];
        }
      }
    }
  }

  /** Changing the case of an ASCII letter gives a letter. */
  lemma CaseOfLetter(c: char)
    requires IsAsciiLetter(c)
    ensures IsAsciiUpper(UpperChar(c)) && IsAsciiLower(LowerChar(c))
  {
  }

  /** `normalized.replace(".", " ").replace("_", " ").title()` */
  function DisplayName(normalized: string): string
  {
    Title(ReplaceChar(ReplaceChar(normalized, '.', ' '), '_', ' '))
  }

  /** The default display name has the name's length, no `.` or `_`, and
      each word starting in upper case. */
  lemma DisplayNameShape(normalized: string)
    ensures var d := DisplayName(normalized);
      |d| == |normalized| && '.' !in d && '_' !in d &&
      forall i :: 0 <= i < |d| ==> IsAsciiLetter(d[i]) && (i == 0 || !IsAsciiLetter(d[i - 1])) ==> IsAsciiUpper(d[i])
  {
    var t := ReplaceChar(ReplaceChar(normalized, '.', ' '), '_', ' ');
    TitleFromChars(t, false);
    var d := DisplayName(normalized);
    assert d == TitleFrom(t, false);
    forall i | 0 <= i < |d|
      ensures d[i] != '.' && d[i] != '_'
      ensures IsAsciiLetter(d[i]) <==> IsAsciiLetter(t[i])
      ensures IsAsciiLetter(t[i]) && (i == 0 || !IsAsciiLetter(t[i - 1])) ==> IsAsciiUpper(d[i])
    {
      assert t[i] != '.' && t[i] != '_';
      assert d[i] == TitleChar(if i == 0 then false else IsAsciiLetter(t[i - 1]), t[i]);
      if IsAsciiLetter(t[i]) {
        CaseOfLetter(t[i]);
      }
    }
  }

  /** A row of the users table, as far as the merge reads it. */
  datatype DbUser = DbUser(role: Option<string>, userId: Option<int>, id: Option<int>, fullName: string)

  /** The user dictionary the dependencies return. Token users have no
      display name; it is `""` here. */
  datatype User = User(username: string, displayName: string, role: Option<string>, userId: Option<int>,
                       authMethod: string, tokenName: string)

  /** `a or b` on optional integers (`None` and `0` are false). */
  function IntOr(a: Option<int>, b: Option<int>): Option<int>
  {
    if a.Some? && a.value != 0 then a else b
  }

  /** The users-table row the merge finds: by the normalised name, else by
      the quote-stripped raw name when that differs. */
  function FindDbUser(users: map<string, DbUser>, normalized: string, raw: string): Option<DbUser>
  {
    if normalized in users then Some(users[normalized])
    else if raw != normalized && raw in users then Some(users[raw])
    else None
  }

  /** `get_runtime_user_from_request`, with the users table as a map. */
  function RuntimeUser(h: RequestHeaders, users: map<string, DbUser>): Option<User>
  {
    match IdentityHeader(h)
    case None => None
    case Some(hdr) => Some(HeaderUser(hdr, OrElse(HeaderValue(h, "X-Auth-Method"), Some("proxy")).value, users))
  }

  /** The user built from an identity header value: the normalised name,
      merged with its users-table row when there is one. */
  function HeaderUser(hdr: string, authMethod: string, users: map<string, DbUser>): User
  {
    var normalized := NormalizeIdentity(hdr);
    var raw := Unquote(Strip(hdr));
    var base := User(normalized, DisplayName(normalized), None, None, authMethod, normalized);
    match FindDbUser(users, normalized, raw)
    case None => base
    case Some(row) =>
      base.(role := row.role, userId := IntOr(row.userId, row.id),
            displayName := if row.fullName != "" then row.fullName else base.displayName)
  }

  /** A header user is named by the normalised header, keeps the method it
      is given, and has a role only from a users-table row. */
  lemma HeaderUserProps(hdr: string, authMethod: string, users: map<string, DbUser>)
    ensures var u := HeaderUser(hdr, authMethod, users);
      u.username == NormalizeIdentity(hdr) && u.tokenName == u.username && u.authMethod == authMethod &&
      (u.role.Some? ==> FindDbUser(users, u.username, Unquote(Strip(hdr))).Some?)
  {
  }

  /** Some identity header is set exactly when one of the four is non-empty. */
  lemma IdentityHeaderSome(h: RequestHeaders)
    ensures IdentityHeader(h).Some? <==> exists k :: 0 <= k < |IdentityHeaders| && Truthy(HeaderValue(h, IdentityHeaders[k]))
  {
    var r := FirstPresent(h, IdentityHeaders);
    if r.Some? {
      var k :| 0 <= k < |IdentityHeaders| && HeaderValue(h, IdentityHeaders[k]) == r;
      assert Truthy(HeaderValue(h, IdentityHeaders[k]));
    }
  }

  /** The runtime user exists exactly when some identity header is
      non-empty; its name is the normalised first such header, its method
      `X-Auth-Method` or `proxy`, and its role comes from the table only. */
  lemma RuntimeUserProps(h: RequestHeaders, users: map<string, DbUser>)
    ensures RuntimeUser(h, users).Some? <==> exists k :: 0 <= k < |IdentityHeaders| && Truthy(HeaderValue(h, IdentityHeaders[k]))
    ensures RuntimeUser(h, users).Some? ==>
      var u := RuntimeUser(h, users).value;
      var hdr := IdentityHeader(h).value;
      u.username == NormalizeIdentity(hdr) && u.tokenName == u.username &&
      u.authMethod == (if Truthy(HeaderValue(h, "X-Auth-Method")) then HeaderValue(h, "X-Auth-Method").value else "proxy") &&
      (u.role.Some? ==> FindDbUser(users, u.username, Unquote(Strip(hdr))).Some?)
  {
    IdentityHeaderSome(h);
    if IdentityHeader(h).Some? {
      var authMethod := OrElse(HeaderValue(h, "X-Auth-Method"), Some("proxy")).value;
      HeaderUserProps(IdentityHeader(h).value, authMethod, users);
    }
  }

  /** The table is searched by the normalised name first; the raw name is
      tried only when that misses and differs. */
  lemma FindDbUserOrder(users: map<string, DbUser>, normalized: string, raw: string)
    ensures normalized in users ==> FindDbUser(users, normalized, raw) == Some(users[normalized])
    ensures FindDbUser(users, normalized, raw).Some? && normalized !in users ==> raw != normalized && raw in users
  {
  }

  // ---------------------------------------------------------------------
  // Token precedence and role gates
  // ---------------------------------------------------------------------

  /** A row of the API tokens table. */
  datatype TokenRow = TokenRow(tokenName: string, role: Option<string>, revoked: int)

  /** `verify_token`: proxy headers, then `X-Admin-Token`, then
      `X-Agent-Token`. */
  function VerifyToken(h: RequestHeaders, users: map<string, DbUser>, tokens: map<string, TokenRow>): Outcome<User>
  {
    var runtime := RuntimeUser(h, users);
    if runtime.Some? && runtime.value.username != "" then Ok(runtime.value)
    else
      var admin := HeaderValue(h, "X-Admin-Token");
      if Truthy(admin) then
        if admin.value in tokens && tokens[admin.value].revoked != 1 then
          var row := tokens[admin.value];
          Ok(User(row.tokenName, "", row.role, None, "token", row.tokenName))
        else Fail(401, "Invalid or revoked admin token")
      else
        var agent := HeaderValue(h, "X-Agent-Token");
        if Truthy(agent) then
          if agent.value in tokens && tokens[agent.value].revoked != 1 then
            var row := tokens[agent.value];
            if row.role != Some("agent") then Fail(403, "Token is not an agent token")
            else Ok(User(row.tokenName, "", Some("agent"), None, "agent_token", row.tokenName))
          else Fail(401, "Invalid or revoked agent token")
        else Fail(401, "Authentication required")
  }

  /** The precedence of `verify_token`: a named proxy user wins; a present
      admin token decides alone (the agent token is then never looked at);
      an agent token must be live (401) and of the agent role (403); with no
      credential the answer is 401. */
  lemma VerifyTokenPrecedence(h: RequestHeaders, users: map<string, DbUser>, tokens: map<string, TokenRow>)
    ensures var r := VerifyToken(h, users, tokens);
      var runtime := RuntimeUser(h, users);
      var admin := HeaderValue(h, "X-Admin-Token");
      var agent := HeaderValue(h, "X-Agent-Token");
      (runtime.Some? && runtime.value.username != "" ==> r == Ok(runtime.value)) &&
      (!(runtime.Some? && runtime.value.username != "") && Truthy(admin) ==>
        (r.Ok? <==> admin.value in tokens && tokens[admin.value].revoked != 1) &&
        (r.Fail? ==> r.status == 401) &&
        (r.Ok? ==> r.value.authMethod == "token" && r.value.role == tokens[admin.value].role)) &&
      (!(runtime.Some? && runtime.value.username != "") && !Truthy(admin) && Truthy(agent) ==>
        (r.Ok? <==> agent.value in tokens && tokens[agent.value].revoked != 1 && tokens[agent.value].role == Some("agent")) &&
        (r.Fail? && r.status == 403 <==> agent.value in tokens && tokens[agent.value].revoked != 1 && tokens[agent.value].role != Some("agent"))) &&
      (!(runtime.Some? && runtime.value.username != "") && !Truthy(admin) && !Truthy(agent) ==>
        r == Fail(401, "Authentication required"))
  {
  }

  /** The methods trusted as strong enterprise authentication. */
  predicate TrustedMethod(m: string)
  {
    m == "proxy" || m == "smartcard" || m == "wna"
  }

  /** The gate of `require_admin` on a verified user. */
  function AdminGate(u: User): Outcome<User>
  {
    if u.role == Some("admin") then Ok(u)
    else if TrustedMethod(u.authMethod) then Ok(u.(role := Some("admin")))
    else Fail(403, "Admin access required")
  }

  /** The gate of `require_approver` on a verified user. */
  function ApproverGate(u: User): Outcome<User>
  {
    if u.role == Some("approver") || u.role == Some("admin") then Ok(u)
    else if TrustedMethod(u.authMethod) then Ok(u.(role := Some("approver")))
    else Fail(403, "Approver access required")
  }

  /** `require_admin` */
  function RequireAdmin(h: RequestHeaders, users: map<string, DbUser>, tokens: map<string, TokenRow>): Outcome<User>
  {
    match VerifyToken(h, users, tokens)
    case Fail(st, d) => Fail(st, d)
    case Ok(u) => AdminGate(u)
  }

  /** `require_approver` */
  function RequireApprover(h: RequestHeaders, users: map<string, DbUser>, tokens: map<string, TokenRow>): Outcome<User>
  {
    match VerifyToken(h, users, tokens)
    case Fail(st, d) => Fail(st, d)
    case Ok(u) => ApproverGate(u)
  }

  /** The admin gate passes exactly admins and users of a trusted method,
      promoting the latter to `admin` and changing nothing else; otherwise
      403. */
  lemma AdminGateIff(u: User)
    ensures AdminGate(u).Ok? <==> u.role == Some("admin") || TrustedMethod(u.authMethod)
    ensures AdminGate(u).Ok? ==> AdminGate(u).value == u.(role := Some("admin"))
    ensures AdminGate(u).Fail? ==> AdminGate(u).status == 403
  {
  }

  /** The approver gate passes approvers, admins and users of a trusted
      method; a promoted user's role becomes `approver`; otherwise 403. */
  lemma ApproverGateIff(u: User)
    ensures ApproverGate(u).Ok? <==> u.role == Some("approver") || u.role == Some("admin") || TrustedMethod(u.authMethod)
    ensures ApproverGate(u).Ok? ==> ApproverGate(u).value.role in {Some("approver"), Some("admin")}
    ensures ApproverGate(u).Ok? && !(u.role == Some("approver") || u.role == Some("admin")) ==>
      ApproverGate(u).value == u.(role := Some("approver"))
    ensures ApproverGate(u).Fail? ==> ApproverGate(u).status == 403
  {
  }

  /** Any request whose identity header normalises to a name and that sends
      no `X-Auth-Method` passes the admin gate, whatever the users table
      says. */
  lemma HeaderIdentityIsAdmin(h: RequestHeaders, users: map<string, DbUser>, tokens: map<string, TokenRow>)
    requires IdentityHeader(h).Some? && NormalizeIdentity(IdentityHeader(h).value) != ""
    requires !Truthy(HeaderValue(h, "X-Auth-Method"))
    ensures RequireAdmin(h, users, tokens).Ok? && RequireAdmin(h, users, tokens).value.role == Some("admin")
  {
    RuntimeUserProps(h, users);
    var u := RuntimeUser(h, users).value;
    assert VerifyToken(h, users, tokens) == Ok(u);
    AdminGateIff(u);
  }

  /** `require_agent` */
  function RequireAgent(h: RequestHeaders, tokens: map<string, TokenRow>): (r: Outcome<User>)
    ensures r.Ok? ==> r.value.role == Some("agent") && r.value.authMethod == "agent_token"
  {
    var token := OrElse(HeaderValue(h, "X-Agent-Token"), HeaderValue(h, "X-Agent-Auth"));
    if !Truthy(token) then Fail(401, "Agent token required (X-Agent-Token header)")
    else if token.value !in tokens || tokens[token.value].revoked == 1 then Fail(401, "Invalid or revoked agent token")
    else if tokens[token.value].role != Some("agent") then Fail(403, "Token is not an agent token")
    else
      var row := tokens[token.value];
      Ok(User(row.tokenName, "", Some("agent"), None, "agent_token", row.tokenName))
  }

  /** `require_agent` succeeds exactly for a live agent-role token under
      either header name; an unknown or revoked one is 401, another role
      403. */
  lemma RequireAgentIff(h: RequestHeaders, tokens: map<string, TokenRow>)
    ensures var token := OrElse(HeaderValue(h, "X-Agent-Token"), HeaderValue(h, "X-Agent-Auth"));
      var r := RequireAgent(h, tokens);
      (r.Ok? <==> Truthy(token) && token.value in tokens && tokens[token.value].revoked != 1 && tokens[token.value].role == Some("agent")) &&
      (r.Fail? && r.status == 403 <==> Truthy(token) && token.value in tokens && tokens[token.value].revoked != 1 && tokens[token.value].role != Some("agent"))
  {
  }

  // ---------------------------------------------------------------------
  // Approver JWT
  // ---------------------------------------------------------------------

  /** The claims of a verified approver token, as far as they are read. */
  datatype Claims = Claims(role: Option<string>, sub: Option<string>, username: Option<string>)

  /** What the JWT verifier does with a token. */
  datatype JwtResult = Verified(claims: Claims) | SignatureExpired | Rejected

  /** `verify_approver_jwt(authorization)`, with the JWT verifier as a
      parameter. */
  function VerifyApproverJwt(authorization: Option<string>, verify: string -> JwtResult): Outcome<Claims>
  {
    if !Truthy(authorization) then Fail(401, "Missing Authorization header")
    else
      var a := authorization.value;
      if !StartsWith(Lower(a), "bearer ") then Fail(401, "Invalid Authorization header")
      else
        assert a[6] == ' ' by {
          assert Lower(a)[6] == ' ';
        }
        ApproverVerdict(verify(Strip(After(a, ' '))))
  }

  /** The answer to the verifier's result: expired and refused tokens are
      401, a verified token of another role is 403. */
  function ApproverVerdict(res: JwtResult): (r: Outcome<Claims>)
    ensures r.Ok? <==> res.Verified? && res.claims.role in {Some("approver"), Some("admin")}
    ensures r.Ok? ==> res == Verified(r.value)
    ensures r.Fail? && r.status == 403 <==> res.Verified? && res.claims.role !in {Some("approver"), Some("admin")}
  {
    match res
    case SignatureExpired => Fail(401, "Approver token expired")
    case Rejected => Fail(401, "Invalid approver token")
    case Verified(c) =>
      if c.role != Some("approver") && c.role != Some("admin") then Fail(403, "Approver role required")
      else Ok(c)
  }

  /** The token handed to the verifier is what follows `bearer `, trimmed. */
  lemma BearerToken(a: string)
    requires StartsWith(Lower(a), "bearer ")
    ensures ' ' in a && After(a, ' ') == a[7..]
  {
    assert Lower(a)[..7] == "bearer ";
    forall i | 0 <= i < 6 ensures a[i] != ' ' {
      assert Lower(a)[i] != ' ';
    }
    assert a[6] == ' ' by {
      assert Lower(a)[6] == ' ';
    }
    assert a == a[..6] + [' '] + a[7..];
    assert ' ' !in a[..6];
    SplitAtChar(a[..6], ' ', a[7..]);
  }

  /** The checks of `verify_approver_jwt`: a missing or non-bearer header
      and a token the verifier refuses are 401; a verified token of
      another role is 403; success only for the approver and admin roles. */
  lemma VerifyApproverJwtOutcomes(authorization: Option<string>, verify: string -> JwtResult)
    ensures var r := VerifyApproverJwt(authorization, verify);
      (!Truthy(authorization) ==> r == Fail(401, "Missing Authorization header")) &&
      (Truthy(authorization) && !StartsWith(Lower(authorization.value), "bearer ") ==> r == Fail(401, "Invalid Authorization header")) &&
      (r.Ok? ==> r.value.role == Some("approver") || r.value.role == Some("admin")) &&
      (r.Ok? ==> verify(Strip(authorization.value[7..])) == Verified(r.value)) &&
      (r.Fail? && r.status == 403 <==>
        Truthy(authorization) && StartsWith(Lower(authorization.value), "bearer ") &&
        verify(Strip(authorization.value[7..])).Verified? &&
        verify(Strip(authorization.value[7..])).claims.role !in {Some("approver"), Some("admin")})
  {
    if Truthy(authorization) && StartsWith(Lower(authorization.value), "bearer ") {
      var a := authorization.value;
      BearerToken(a);
      assert VerifyApproverJwt(authorization, verify) == ApproverVerdict(verify(Strip(a[7..])));
    }
  }

  // ---------------------------------------------------------------------
  // One-time execution tokens
  // ---------------------------------------------------------------------

  /** A row of the execution tokens table. `expiresAt` is the parsed
      expiry; `None` stands for an empty or unparsable value, which the
      dependency logs and lets pass. */
  datatype ExecToken = ExecToken(id: int, workflowId: string, used: int, expiresAt: Option<int>, usedBy: string)

  /** The checks of `require_execution_token` as written: the expiry test
      raises inside a `try` whose `except Exception` swallows it, so the
      clock reading `now` has no effect. */
  function CheckExecutionTokenAsWritten(rows: map<string, ExecToken>, token: Option<string>, workflowId: string, now: int): Outcome<ExecToken>
  {
    if !Truthy(token) then Fail(403, "Execution token required")
    else if token.value !in rows then Fail(403, "Invalid execution token")
    else if rows[token.value].workflowId != workflowId then Fail(403, "Token not valid for this workflow")
    else if rows[token.value].used != 0 then Fail(403, "Token already used")
    else Ok(rows[token.value])
  }

  /** The checks as evidently intended: an expired token is refused too. */
  function CheckExecutionToken(rows: map<string, ExecToken>, token: Option<string>, workflowId: string, now: int): Outcome<ExecToken>
  {
    match CheckExecutionTokenAsWritten(rows, token, workflowId, now)
    case Fail(st, d) => Fail(st, d)
    case Ok(row) =>
      if row.expiresAt.Some? && row.expiresAt.value < now then Fail(403, "Token expired") else Ok(row)
  }

  /** As written, an expired, unused token for the right workflow is
      accepted. */
  lemma ExpiredTokenAccepted(rows: map<string, ExecToken>, t: string, workflowId: string, now: int)
    requires t != "" && t in rows && rows[t].workflowId == workflowId && rows[t].used == 0
    requires rows[t].expiresAt.Some? && rows[t].expiresAt.value < now
    ensures CheckExecutionTokenAsWritten(rows, Some(t), workflowId, now) == Ok(rows[t])
  {
  }

  /** Corrected, a token is accepted exactly when it is named, known, for
      this workflow, unused and not expired; every refusal is 403. */
  lemma CheckExecutionTokenIff(rows: map<string, ExecToken>, token: Option<string>, workflowId: string, now: int)
    ensures var r := CheckExecutionToken(rows, token, workflowId, now);
      (r.Ok? <==> Truthy(token) && token.value in rows && rows[token.value].workflowId == workflowId &&
                  rows[token.value].used == 0 &&
                  !(rows[token.value].expiresAt.Some? && rows[token.value].expiresAt.value < now)) &&
      (r.Ok? ==> r.value == rows[token.value]) &&
      (r.Fail? ==> r.status == 403)
  {
  }

  /** A consumed token is refused on any later use. */
  lemma ConsumedTokenRefused(rows: map<string, ExecToken>, t: string, workflowId: string, now: int, later: int, consumer: string)
    requires CheckExecutionToken(rows, Some(t), workflowId, now).Ok?
    ensures CheckExecutionToken(rows[t := rows[t].(used := 1, usedBy := consumer)], Some(t), workflowId, later) == Fail(403, "Token already used")
  {
  }

  /** The execution tokens table. */
  class ExecutionTokens {
    var rows: map<string, ExecToken>

    constructor(rows: map<string, ExecToken>)
      ensures this.rows == rows
    {
      this.rows := rows;
    }

    /** `mark_execution_token_used(id, username)`: an unused row becomes
        used by `username`; a used or missing one is left and reported. */
    method MarkUsed(t: string, username: string) returns (ok: bool)
      modifies this
      ensures ok <==> t in old(rows) && old(rows)[t].used == 0
      ensures ok ==> rows == old(rows)[t := old(rows)[t].(used := 1, usedBy := username)]
      ensures !ok ==> rows == old(rows)
    {
      if t in rows && rows[t].used == 0 {
        rows := rows[t := rows[t].(used := 1, usedBy := username)];
        return true;
      }
      return false;
    }

    /** The dependency built by `require_execution_token(workflow_id)`, as
        written: the caller is verified, the token checked by
        `CheckExecutionTokenAsWritten` (an expired token passes), then
        consumed. */
    method RequireExecutionToken(h: RequestHeaders, users: map<string, DbUser>, tokens: map<string, TokenRow>,
                                 workflowId: string, token: Option<string>, now: int) returns (r: Outcome<ExecToken>)
      modifies this
      ensures r.Ok? <==> VerifyToken(h, users, tokens).Ok? && CheckExecutionTokenAsWritten(old(rows), token, workflowId, now).Ok?
      ensures r.Ok? ==> (r.value == old(rows)[token.value] &&
                         rows == old(rows)[token.value := r.value.(used := 1, usedBy := VerifyToken(h, users, tokens).value.username)])
      ensures r.Fail? ==> rows == old(rows)
      ensures VerifyToken(h, users, tokens).Fail? ==>
                r == Fail(VerifyToken(h, users, tokens).status, VerifyToken(h, users, tokens).detail)
      ensures VerifyToken(h, users, tokens).Ok? && r.Fail? ==> r == CheckExecutionTokenAsWritten(old(rows), token, workflowId, now)
    {
      var user := VerifyToken(h, users, tokens);
      if user.Fail? {
        return Fail(user.status, user.detail);
      }
      var check := CheckExecutionTokenAsWritten(rows, token, workflowId, now);
      r := Redeem(token, user.value.username, check);
    }

    /** The dependency as evidently intended: the same steps with the
        corrected `CheckExecutionToken`, so an expired token is refused and
        stays unused. */
    method RequireUnexpiredToken(h: RequestHeaders, users: map<string, DbUser>, tokens: map<string, TokenRow>,
                                 workflowId: string, token: Option<string>, now: int) returns (r: Outcome<ExecToken>)
      modifies this
      ensures r.Ok? <==> VerifyToken(h, users, tokens).Ok? && CheckExecutionToken(old(rows), token, workflowId, now).Ok?
      ensures r.Ok? ==> (r.value == old(rows)[token.value] &&
                         rows == old(rows)[token.value := r.value.(used := 1, usedBy := VerifyToken(h, users, tokens).value.username)])
      ensures r.Fail? ==> rows == old(rows)
      ensures VerifyToken(h, users, tokens).Fail? ==>
                r == Fail(VerifyToken(h, users, tokens).status, VerifyToken(h, users, tokens).detail)
      ensures VerifyToken(h, users, tokens).Ok? && r.Fail? ==> r == CheckExecutionToken(old(rows), token, workflowId, now)
    {
      var user := VerifyToken(h, users, tokens);
      if user.Fail? {
        return Fail(user.status, user.detail);
      }
      var check := CheckExecutionToken(rows, token, workflowId, now);
      r := Redeem(token, user.value.username, check);
    }

    /** The end of the dependency: a failed check is raised; a passed one
        marks its row used by `username`. The check passes only for an
        unused row, so in this sequential model marking it cannot fail and
        the `Token could not be consumed` answer is never given. */
    method Redeem(token: Option<string>, username: string, check: Outcome<ExecToken>) returns (r: Outcome<ExecToken>)
      requires check.Ok? ==> token.Some? && token.value in rows && rows[token.value] == check.value && check.value.used == 0
      modifies this
      ensures r == check
      ensures r.Ok? ==> rows == old(rows)[token.value := r.value.(used := 1, usedBy := username)]
      ensures r.Fail? ==> rows == old(rows)
    {
      if check.Fail? {
        return check;
      }
      var ok := MarkUsed(token.value, username);
      assert ok;
      r := check;
    }
  }
}
