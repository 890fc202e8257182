/** The proxy's minimal HTTP/1.1 framing: `parse_request`, `build_request`
    and `build_response`. The wire is modelled as characters; the UTF-8
    decoding of the head is not modelled. */
module HttpMessage {
  import opened Base
  import opened Text
  import opened ODict

  type Headers = Dict<string, string>

  const CRLF: string := "\r\n"
  const BlankLine: string := "\r\n\r\n"

  datatype Request = Request(verb: string, path: string, headers: Headers, body: string)

  /** `data.split(b'\r\n\r\n', 1)` when the blank line occurs, else `(data, b'')`. */
  function SplitHeadBody(data: string): (r: (string, string))
    ensures IndexOf(data, BlankLine).Some? ==> data == r.0 + BlankLine + r.1
    ensures IndexOf(data, BlankLine).None? ==> r == (data, "")
    ensures forall j :: !OccursAt(r.0, BlankLine, j)
  {
    match IndexOf(data, BlankLine)
    case None => (data, "")
    case Some(i) =>
      assert data == data[..i] + BlankLine + data[i + 4..];
      assert forall j :: OccursAt(data[..i], BlankLine, j) ==> OccursAt(data, BlankLine, j) by {
        forall j | OccursAt(data[..i], BlankLine, j) ensures OccursAt(data, BlankLine, j) {
          assert data[..i][j..j + 4] == data[j..j + 4];
        }
      }
      (data[..i], data[i + 4..])
  }

  /** The lower-cased, stripped name of a header line `k: v`. */
  function LineKey(line: string): string
  {
    Lower(Strip(Before(line, ':')))
  }

  /** The stripped value of a header line `k: v`. */
  function LineValue(line: string): string
    requires ':' in line
  {
    Strip(After(line, ':'))
  }

  /** One iteration of the header loop: a line with a colon sets its key. */
  function AddHeaderLine(d: Headers, line: string): Headers
  {
    if ':' in line then Set(d, LineKey(line), LineValue(line)) else d
  }

  /** The header dictionary the loop builds from `lines`, in order. */
  function HeadersOf(lines: seq<string>): Headers
    decreases |lines|
  {
    if lines == [] then []
    else AddHeaderLine(HeadersOf(lines[..|lines| - 1]), lines[|lines| - 1])
  }

  /** `(method, path, headers, body)` as `parse_request` returns them. */
  function ParseRequestSpec(data: string): Request
  {
    var (head, body) := SplitHeadBody(data);
    var lines := Split(head, CRLF);
    var parts := Split(lines[0], " ");
    Request(parts[0], if |parts| > 1 then parts[1] else "/", HeadersOf(lines[1..]), body)
  }

  /** The header loop of `parse_request`: every line with a colon sets its
      lower-cased, stripped name to its stripped value, later lines winning. */
  method ParseHeaderLines(lines: seq<string>) returns (headers: Headers)
    ensures headers == HeadersOf(lines)
  {
    headers := [];
    var i := 0;
    while i < |lines|
      invariant 0 <= i <= |lines|
      invariant headers == HeadersOf(lines[..i])
    {
      var line := lines[i];
      assert lines[..i + 1][..i] == lines[..i];
      assert HeadersOf(lines[..i + 1]) == AddHeaderLine(headers, line);
      if ':' in line {
        headers := Set(headers, LineKey(line), LineValue(line));
      }
      i := i + 1;
    }
    assert lines[..i] == lines;
  }

  /** `parse_request`: the request line, the header loop and the body. The
      `except` branch of the source cannot be reached: splitting always
      yields a first line and a first field. */
  method ParseRequest(data: string) returns (r: Request)
    ensures r == ParseRequestSpec(data)
  {
    var hb := SplitHeadBody(data);
    var lines := Split(hb.0, CRLF);
    var parts := Split(lines[0], " ");
    var path := if |parts| > 1 then parts[1] else "/";
    var headers := ParseHeaderLines(lines[1..]);
    r := Request(parts[0], path, headers, hb.1);
  }

  /** The parsed headers are a dictionary: every name occurs once. */
  lemma {:induction false} HeadersOfDistinct(lines: seq<string>)
    ensures DistinctKeys(HeadersOf(lines))
    decreases |lines|
  {
    if lines != [] {
      var init := lines[..|lines| - 1];
      HeadersOfDistinct(init);
      var line := lines[|lines| - 1];
      if ':' in line {
        SetProps(HeadersOf(init), LineKey(line), LineValue(line));
      }
    }
  }

  /** Whether `line` is a header line naming `k`. */
  predicate NamesKey(line: string, k: string)
  {
    ':' in line && LineKey(line) == k
  }

  /** A header line naming `k` sets its value. */
  lemma AddHeaderLineNamed(d: Headers, line: string, k: string)
    requires NamesKey(line, k)
    ensures Get(AddHeaderLine(d, line), k) == Some(LineValue(line))
  {
    SetProps(d, k, LineValue(line));
  }

  /** A line that does not name `k` leaves its value alone. */
  lemma AddHeaderLineOther(d: Headers, line: string, k: string)
    requires !NamesKey(line, k)
    ensures Get(AddHeaderLine(d, line), k) == Get(d, k)
  {
    if ':' in line {
      SetProps(d, LineKey(line), LineValue(line));
    }
  }

  /** A name that no header line carries is absent from the parsed headers. */
  lemma {:induction false} HeadersOfAbsent(lines: seq<string>, k: string)
    requires forall i :: 0 <= i < |lines| ==> !NamesKey(lines[i], k)
    ensures Get(HeadersOf(lines), k) == None
    decreases |lines|
  {
    if lines != [] {
      var n := |lines| - 1;
      HeadersOfAbsent(lines[..n], k);
      AddHeaderLineOther(HeadersOf(lines[..n]), lines[n], k);
    }
  }

  /** Line `i` is the last header line naming `k`. */
  predicate LastNaming(lines: seq<string>, k: string, i: nat)
  {
    i < |lines| && NamesKey(lines[i], k) && forall j :: i < j < |lines| ==> !NamesKey(lines[j], k)
  }

  /** Dropping a final line other than `i` keeps `i` the last one naming `k`. */
  lemma LastNamingInit(lines: seq<string>, k: string, i: nat)
    requires LastNaming(lines, k, i) && i < |lines| - 1
    ensures LastNaming(lines[..|lines| - 1], k, i) && !NamesKey(lines[|lines| - 1], k)
  {
    var init := lines[..|lines| - 1];
    assert init[i] == lines[i];
    forall j | i < j < |init| ensures !NamesKey(init[j], k) {
      assert init[j] == lines[j];
    }
  }

  /** A later header line with the same name wins: the value parsed for `k`
      is that of the last line naming `k`. */
  lemma {:induction false} HeadersOfLast(lines: seq<string>, k: string, i: nat)
    requires LastNaming(lines, k, i)
    ensures Get(HeadersOf(lines), k) == Some(LineValue(lines[i]))
    decreases |lines|
  {
    var n := |lines| - 1;
    var init := lines[..n];
    var d := HeadersOf(init);
    assert HeadersOf(lines) == AddHeaderLine(d, lines[n]);
    if i < n {
      LastNamingInit(lines, k, i);
      HeadersOfLast(init, k, i);
      AddHeaderLineOther(d, lines[n], k);
    } else {
      AddHeaderLineNamed(d, lines[n], k);
    }
  }

  /** The header lines `k: v` of a dictionary, in its order. */
  function HeaderLines(h: Headers): (r: seq<string>)
    ensures |r| == |h| && forall i :: 0 <= i < |h| ==> r[i] == h[i].0 + ": " + h[i].1
  {
    seq(|h|, i requires 0 <= i < |h| => h[i].0 + ": " + h[i].1)
  }

  /** `build_request`: request line, header lines, blank line, body. */
  function BuildRequest(verb: string, path: string, headers: Headers, body: string): string
  {
    Join([verb + " " + path + " HTTP/1.1"] + HeaderLines(headers), CRLF) + BlankLine + body
  }

  /** The headers `build_response` sends: `Content-Length` is set when the
      body is non-empty. */
  function ResponseHeaders(headers: Headers, body: string): (r: Headers)
  {
    if body != "" then Set(headers, "Content-Length", NatToString(|body|)) else headers
  }

  /** `build_response`: status line, header lines, blank line, body. */
  function BuildResponse(status: int, reason: string, headers: Headers, body: string): string
  {
    Join(["HTTP/1.1 " + IntToString(status) + " " + reason] + HeaderLines(ResponseHeaders(headers, body)), CRLF)
      + BlankLine + body
  }

  /** The header names lower-cased, as the parser stores them. */
  function LowerKeys(h: Headers): (r: Headers)
    ensures |r| == |h| && forall i :: 0 <= i < |h| ==> r[i] == (Lower(h[i].0), h[i].1)
  {
    MapKeys(h, Lower)
  }

  predicate NoLineBreak(s: string)
  {
    '\r' !in s && '\n' !in s
  }

  /** A header that survives a round trip: no colon in the name, no line
      break, no surrounding whitespace. */
  predicate FieldOk(k: string, v: string)
  {
    ':' !in k && NoLineBreak(k) && NoLineBreak(v) && Trimmed(k) && Trimmed(v)
  }

  predicate WellFormedHeaders(h: Headers)
  {
    (forall i :: 0 <= i < |h| ==> FieldOk(h[i].0, h[i].1)) && DistinctKeys(LowerKeys(h))
  }

  /** Lines without line breaks, none empty, joined by CRLF, never hold a
      blank line, and neither start nor end with a line-break character. */
  lemma {:induction false} NoBlankLineInJoin(lines: seq<string>)
    requires |lines| >= 1
    requires forall i :: 0 <= i < |lines| ==> lines[i] != [] && NoLineBreak(lines[i])
    ensures var s := Join(lines, CRLF);
      s != [] && s[0] != '\r' && s[|s| - 1] != '\r' && s[|s| - 1] != '\n' &&
      forall j :: !OccursAt(s, BlankLine, j)
    decreases |lines|
  {
    var s := Join(lines, CRLF);
    if |lines| == 1 {
      forall j | 0 <= j ensures !OccursAt(s, BlankLine, j) {
        if j + 4 <= |s| {
          assert s[j..j + 4][0] == lines[0][j];
        }
      }
    } else {
      var a := lines[0];
      var c := Join(lines[1..], CRLF);
      NoBlankLineInJoin(lines[1..]);
      assert s == a + CRLF + c;
      forall j | 0 <= j && j + 4 <= |s| ensures !OccursAt(s, BlankLine, j) {
        var w := s[j..j + 4];
        if j < |a| {
          assert w[0] == a[j];
        } else if j == |a| {
          assert w[2] == c[0];
        } else if j == |a| + 1 {
          assert w[0] == '\n';
        } else {
          var j' := j - |a| - 2;
          assert w == c[j'..j' + 4];
          assert !OccursAt(c, BlankLine, j');
        }
      }
    }
  }

  /** The first blank line of `head + "\r\n\r\n" + body` is the one after
      `head`, when `head` holds none and does not end in a line break. */
  lemma FirstBlankLine(head: string, body: string)
    requires head != [] && head[|head| - 1] != '\r' && head[|head| - 1] != '\n'
    requires forall j :: !OccursAt(head, BlankLine, j)
    ensures IndexOf(head + BlankLine + body, BlankLine) == Some(|head|)
  {
    var data := head + BlankLine + body;
    forall j | 0 <= j < |head| && j + 4 <= |data| ensures !OccursAt(data, BlankLine, j) {
      if j + 4 <= |head| {
        assert data[j..j + 4] == head[j..j + 4];
        assert !OccursAt(head, BlankLine, j);
      } else {
        var t := |head| - 1 - j;
        assert data[j..j + 4][t] == head[|head| - 1];
      }
    }
    assert data[|head|..|head| + 4] == BlankLine;
    IndexOfIs(data, BlankLine, |head|);
  }

  /** The first two space-separated fields of `a + " " + b + rest`. */
  lemma FirstTwoFields(a: string, b: string, rest: string)
    requires ' ' !in a && ' ' !in b && (rest == [] || rest[0] == ' ')
    ensures var parts := Split(a + " " + b + rest, " ");
      |parts| >= 2 && parts[0] == a && parts[1] == b
  {
    var s := a + " " + b + rest;
    assert s == a + (" " + b + rest);
    IndexOfIs(" " + b + rest, " ", 0);
    IndexOfAfter(a, " " + b + rest, " ");
    assert s[..|a|] == a;
    assert s[|a| + 1..] == b + rest;
    if rest == [] {
      IndexOfAfter(b, [], " ");
      assert b + [] == b;
    } else {
      IndexOfIs(rest, " ", 0);
      IndexOfAfter(b, rest, " ");
      assert (b + rest)[..|b|] == b;
    }
  }

  /** The line `k: v` reads back as name `lower(k)` and value `v`. */
  lemma HeaderLineParts(k: string, v: string)
    requires FieldOk(k, v)
    ensures ':' in k + ": " + v
    ensures LineKey(k + ": " + v) == Lower(k) && LineValue(k + ": " + v) == v
  {
    var line := k + ": " + v;
    assert line == k + [':'] + (" " + v);
    assert line[..|k|] == k && line[|k|] == ':';
    assert FindChar(line, ':') == Some(|k|);
    assert Before(line, ':') == k;
    assert After(line, ':') == [' '] + v;
    StripLeadingSpace([' '], v);
    StripNoop(v);
    StripNoop(k);
  }

  lemma WellFormedPrefix(h: Headers, n: nat)
    requires WellFormedHeaders(h) && n <= |h|
    ensures WellFormedHeaders(h[..n])
  {
    var init := h[..n];
    assert forall i :: 0 <= i < n ==> init[i] == h[i];
    assert forall i :: 0 <= i < n ==> LowerKeys(init)[i] == LowerKeys(h)[i];
  }

  /** The last name of a well-formed dictionary is new to the names before it. */
  lemma LastKeyFresh(h: Headers)
    requires WellFormedHeaders(h) && h != []
    ensures !HasKey(LowerKeys(h[..|h| - 1]), Lower(h[|h| - 1].0))
  {
    var n := |h| - 1;
    var lk := LowerKeys(h);
    var li := LowerKeys(h[..n]);
    forall j | 0 <= j < |li| ensures li[j].0 != Lower(h[n].0) {
      assert li[j] == lk[j];
    }
    IndexOfKeyAbsent(li, Lower(h[n].0));
  }

  lemma LowerKeysSnoc(h: Headers)
    requires h != []
    ensures LowerKeys(h) == LowerKeys(h[..|h| - 1]) + [(Lower(h[|h| - 1].0), h[|h| - 1].1)]
  {
  }

  /** Parsing the header lines of a well-formed dictionary gives it back with
      lower-cased names, in the same order. */
  lemma {:induction false} HeadersOfHeaderLines(h: Headers)
    requires WellFormedHeaders(h)
    ensures HeadersOf(HeaderLines(h)) == LowerKeys(h)
    decreases |h|
  {
    if h != [] {
      var n := |h| - 1;
      var init := h[..n];
      var lines := HeaderLines(h);
      assert lines[..n] == HeaderLines(init);
      WellFormedPrefix(h, n);
      HeadersOfHeaderLines(init);
      var k := h[n].0;
      var v := h[n].1;
      assert lines[n] == k + ": " + v;
      HeaderLineParts(k, v);
      assert HeadersOf(lines) == AddHeaderLine(HeadersOf(lines[..n]), lines[n]);
      assert HeadersOf(lines) == Set(LowerKeys(init), Lower(k), v);
      LastKeyFresh(h);
      LowerKeysSnoc(h);
    }
  }

  lemma HeadLinesOk(first: string, h: Headers)
    requires first != [] && NoLineBreak(first)
    requires WellFormedHeaders(h)
    ensures var lines := [first] + HeaderLines(h);
      forall i :: 0 <= i < |lines| ==> lines[i] != [] && NoLineBreak(lines[i])
  {
    var lines := [first] + HeaderLines(h);
    forall i | 1 <= i < |lines| ensures lines[i] != [] && NoLineBreak(lines[i]) {
      var (k, v) := h[i - 1];
      assert lines[i] == k + ": " + v;
      assert lines[i][|k|] == ':';
    }
  }

  /** Parsing a message whose head is `first` and `h`'s header lines. */
  lemma ParseBuilt(data: string, first: string, h: Headers, body: string)
    requires first != [] && NoLineBreak(first)
    requires WellFormedHeaders(h)
    requires data == Join([first] + HeaderLines(h), CRLF) + BlankLine + body
    ensures var parts := Split(first, " ");
      ParseRequestSpec(data) == Request(parts[0], if |parts| > 1 then parts[1] else "/", LowerKeys(h), body)
  {
    var lines := [first] + HeaderLines(h);
    var head := Join(lines, CRLF);
    HeadLinesOk(first, h);
    NoBlankLineInJoin(lines);
    FirstBlankLine(head, body);
    assert data[..|head|] == head;
    assert data[|head| + 4..] == body;
    assert SplitHeadBody(data) == (head, body);
    SplitJoin(lines, CRLF);
    assert Split(head, CRLF)[1..] == HeaderLines(h);
    HeadersOfHeaderLines(h);
  }

  /** `parse_request(build_request(m, p, h, b)) == (m, p, lower(h), b)`:
      what the proxy sends a backend is read back as it was built. */
  lemma RequestRoundTrip(verb: string, path: string, h: Headers, body: string)
    requires ' ' !in verb && NoLineBreak(verb)
    requires ' ' !in path && NoLineBreak(path)
    requires WellFormedHeaders(h)
    ensures ParseRequestSpec(BuildRequest(verb, path, h, body)) ==
            Request(verb, path, LowerKeys(h), body)
  {
    var first := verb + " " + path + " HTTP/1.1";
    assert first[|verb|] == ' ';
    ParseBuilt(BuildRequest(verb, path, h, body), first, h, body);
    FirstTwoFields(verb, path, " HTTP/1.1");
  }

  /** The proxy's own responses read back through the same parser: the
      first field is the protocol, the second the status code, and the
      headers are those `build_response` sends, `Content-Length` included. */
  lemma ResponseRoundTrip(status: int, reason: string, h: Headers, body: string)
    requires NoLineBreak(reason)
    requires WellFormedHeaders(ResponseHeaders(h, body))
    ensures ParseRequestSpec(BuildResponse(status, reason, h, body)) ==
            Request("HTTP/1.1", IntToString(status), LowerKeys(ResponseHeaders(h, body)), body)
  {
    var code := IntToString(status);
    var first := "HTTP/1.1 " + code + " " + reason;
    StatusCodeShape(status);
    assert first == "HTTP/1.1" + " " + code + (" " + reason);
    assert NoLineBreak(first);
    ParseBuilt(BuildResponse(status, reason, h, body), first, ResponseHeaders(h, body), body);
    FirstTwoFields("HTTP/1.1", code, " " + reason);
  }

  /** A status code is written with digits and at most a minus sign. */
  lemma StatusCodeShape(status: int)
    ensures NoLineBreak(IntToString(status)) && ' ' !in IntToString(status)
  {
    var c := IntToString(status);
    var d := NatToString(if status >= 0 then status else -status);
    if status < 0 {
      assert forall i :: 1 <= i < |c| ==> c[i] == d[i - 1];
    }
    assert forall i :: 0 <= i < |c| ==> c[i] == '-' || '0' <= c[i] <= '9';
  }

  /** A non-empty body is announced by its length. */
  lemma ContentLengthSet(h: Headers, body: string)
    requires body != ""
    ensures Get(ResponseHeaders(h, body), "Content-Length") == Some(NatToString(|body|))
    ensures DigitsValue(NatToString(|body|)) == |body|
  {
    SetProps(h, "Content-Length", NatToString(|body|));
    NatToStringValue(|body|);
  }

  /** A request line without a space parses to path `/`. */
  lemma PathDefault(data: string)
    requires ' ' !in Split(SplitHeadBody(data).0, CRLF)[0]
    ensures ParseRequestSpec(data).path == "/"
    ensures ParseRequestSpec(data).verb == Split(SplitHeadBody(data).0, CRLF)[0]
  {
    var line := Split(SplitHeadBody(data).0, CRLF)[0];
    IndexOfAfter(line, [], " ");
    assert line + [] == line;
  }
}
