/** The dark-theme e-mail builder, the four notification templates built on
    it, and the part of `send_email` that decides what is sent: recipient
    normalisation, the headers and the plain-text fallback. Sending itself
    (SMTP, sendmail, the dry-run log) is not modelled. */
module Mailer {
  import opened Base
  import opened Text
  import opened EmailLayout

  const Rose := "#e11d48"
  const Emerald := "#059669"
  const Sky := "#0ea5e9"
  const EvenRow := "#0f172a"
  const OddRow := "#1e293b"
  /** The logo border, the dark theme's one accent colour. */
  const LogoAccent := "#38bdf8"

  /** The button colour: rose for a deny button or a denial title, else
      emerald for an approve button or an approval title, else sky. */
  function ButtonColor(text: string, title: string): (r: string)
    ensures r == Rose <==> Contains(text, "Deny") || Contains(Lower(title), "denied")
    ensures r == Emerald <==> !(Contains(text, "Deny") || Contains(Lower(title), "denied")) &&
                              (Contains(text, "Approve") || Contains(Lower(title), "approved"))
    ensures r == Sky <==> !(Contains(text, "Deny") || Contains(Lower(title), "denied")) &&
                          !(Contains(text, "Approve") || Contains(Lower(title), "approved"))
  {
    if Contains(text, "Deny") || Contains(Lower(title), "denied") then Rose
    else if Contains(text, "Approve") || Contains(Lower(title), "approved") then Emerald
    else Sky
  }

  /** `build_email_html` (dark theme): the rows carry the details in
      order on alternating dark backgrounds, and there are none when the
      details are missing; the button appears exactly when both its text
      and its address are non-empty, in the colour `ButtonColor` picks;
      the footer appears exactly when it is non-empty. */
  method BuildEmailHtml(title: string, titleColor: string, message: string, details: Option<seq<(string, string)>>,
                        buttonText: Option<string>, buttonUrl: Option<string>, footer: Option<string>)
    returns (email: Layout)
    ensures email.title == title && email.titleColor == titleColor && email.message == message
    ensures email.accentColor == LogoAccent
    ensures Carries(email.rows, if details.Some? then details.value else [])
    ensures Alternates(email.rows, EvenRow, OddRow)
    ensures email.button.Some? <==> Truthy(buttonText) && Truthy(buttonUrl)
    ensures email.button.Some? ==>
      email.button.value == Button(buttonText.value, buttonUrl.value, ButtonColor(buttonText.value, title))
    ensures email.footer.Some? <==> Truthy(footer)
    ensures email.footer.Some? ==> email.footer == footer
  {
    var rows: seq<DetailRow> := [];
    if details.Some? && details.value != [] {
      rows := BuildRows(details.value, EvenRow, OddRow);
    }
    var button: Option<Button> := None;
    if Truthy(buttonText) && Truthy(buttonUrl) {
      button := Some(Button(buttonText.value, buttonUrl.value, ButtonColor(buttonText.value, title)));
    }
    var foot: Option<string> := None;
    if Truthy(footer) {
      foot := footer;
    }
    email := Layout(title, titleColor, LogoAccent, message, rows, button, foot);
  }

  /** `<span style="…">text</span>` */
  function Span(style: string, text: string): string
  {
    "<span style=\"" + style + "\">" + text + "</span>"
  }

  /** The monospace workflow-id cell shared by all templates. */
  function WorkflowIdCell(workflowId: string): string
  {
    Span("font-family: monospace; color: #38bdf8;", workflowId)
  }

  function ScriptCell(scriptId: string): string
  {
    Span("font-family: monospace;", scriptId)
  }

  /** `value or default` on an optional string. */
  function OrDefault(value: Option<string>, default: string): (r: string)
    ensures Truthy(value) ==> r == value.value
    ensures !Truthy(value) ==> r == default
  {
    if Truthy(value) then value.value else default
  }

  /** The requestor as shown: `name (email)` when an address is known,
      the bare name otherwise. */
  function RequestorDisplay(requestor: string, email: Option<string>): (r: string)
    ensures Truthy(email) ==> r == requestor + " (" + email.value + ")"
    ensures !Truthy(email) ==> r == requestor
  {
    if Truthy(email) then requestor + " (" + email.value + ")" else requestor
  }

  /** A button caption that is only present with a dashboard address. */
  function CaptionIf(caption: string, dashboardUrl: Option<string>): (r: Option<string>)
    ensures r.Some? <==> Truthy(dashboardUrl)
    ensures r.Some? ==> r.value == caption
  {
    if Truthy(dashboardUrl) then Some(caption) else None
  }

  /** `c in sub` while `c` is missing from `s`: `sub` cannot occur in `s`. */
  lemma AbsentChar(s: string, sub: string, c: char)
    requires c in sub && c !in s
    ensures !Contains(s, sub)
  {
  }

  /** The captions the templates use mention neither denial nor approval:
      none holds a `y` or an `A`. */
  lemma NeutralCaption(text: string)
    requires text == "Open Dashboard to Review" || text == "View in Dashboard" || text == "View Details"
    ensures !Contains(text, "Deny") && !Contains(text, "Approve")
  {
    assert 'y' !in text && 'A' !in text;
    AbsentChar(text, "Deny", 'y');
    AbsentChar(text, "Approve", 'A');
  }

  /** The review button of the approval request is sky blue: neither the
      caption nor the title mentions denial or approval ("approval" is
      not "approved"). */
  lemma RequestButtonColor(text: string, title: string)
    requires text == "Open Dashboard to Review" && title == "⏳ Workflow Approval Required"
    ensures ButtonColor(text, title) == Sky
  {
    NeutralCaption(text);
    RequestTitleNeutral(title);
  }

  /** The lower-cased request title says neither "denied" nor "approved". */
  lemma RequestTitleNeutral(title: string)
    requires title == "⏳ Workflow Approval Required"
    ensures !Contains(Lower(title), "denied") && !Contains(Lower(title), "approved")
  {
    var lowered := Lower(title);
    RequestTitleLowered(title);
    AbsentChar(lowered, "denied", 'n');
    NoApprovedInRequestTitle(lowered);
  }

  lemma RequestTitleLowered(title: string)
    requires title == "⏳ Workflow Approval Required"
    ensures Lower(title) == "⏳ workflow approval required"
  {
  }

  /** "approved" does not occur in the request title: its only `v` is
      followed by an `a`. */
  lemma NoApprovedInRequestTitle(title: string)
    requires title == "⏳ workflow approval required"
    ensures !Contains(title, "approved")
  {
    var pre, post := "⏳ workflow appro", "al required";
    assert title == pre + "v" + post;
    assert 'v' !in pre && 'v' !in post;
    forall j ensures !OccursAt(title, "approved", j) {
      if 0 <= j && j + 8 <= |title| {
        var window := title[j..j + 8];
        assert window[5] == title[j + 5] && window[6] == title[j + 6];
        if j + 5 < |pre| {
          assert title[j + 5] == pre[j + 5];
        } else if j + 5 > |pre| {
          assert title[j + 5] == post[j + 5 - |pre| - 1];
        } else {
          assert title[j + 6] == post[0];
        }
        assert window[5] != 'v' || window[6] != 'e';
      }
    }
  }

  /** The approved notice's button is emerald: its title says
      "approved" and nothing mentions denial. */
  lemma ApprovedButtonColor(text: string, title: string)
    requires text == "View in Dashboard" && title == "✓ Workflow Approved"
    ensures ButtonColor(text, title) == Emerald
  {
    NeutralCaption(text);
    ApprovedTitleSays(title);
  }

  /** The lower-cased approved title says "approved" and not "denied". */
  lemma ApprovedTitleSays(title: string)
    requires title == "✓ Workflow Approved"
    ensures !Contains(Lower(title), "denied") && Contains(Lower(title), "approved")
  {
    var lowered := Lower(title);
    assert lowered == "✓ workflow approved";
    AbsentChar(lowered, "denied", 'n');
    assert OccursAt(lowered, "approved", 11);
  }

  /** The denied notice's button is rose: its title says "denied". */
  lemma DeniedButtonColor(text: string, title: string)
    requires text == "View in Dashboard" && title == "✗ Workflow Denied"
    ensures ButtonColor(text, title) == Rose
  {
    var lowered := Lower(title);
    assert lowered == "✗ workflow denied";
    assert OccursAt(lowered, "denied", 11);
  }

  /** The executed notice's button is sky blue. */
  lemma ExecutedButtonColor(text: string, title: string)
    requires text == "View Details" && title == "⚡ Workflow Executed"
    ensures ButtonColor(text, title) == Sky
  {
    NeutralCaption(text);
    ExecutedTitleNeutral(title);
  }

  /** The lower-cased executed title says neither "denied" nor "approved". */
  lemma ExecutedTitleNeutral(title: string)
    requires title == "⚡ Workflow Executed"
    ensures !Contains(Lower(title), "denied") && !Contains(Lower(title), "approved")
  {
    var lowered := Lower(title);
    assert lowered == "⚡ workflow executed";
    AbsentChar(lowered, "denied", 'n');
    AbsentChar(lowered, "approved", 'p');
  }

  /** The rows of the approval request, in order. */
  function RequestDetails(workflowId: string, scriptId: string, requestor: string, requestorEmail: Option<string>,
                          targets: seq<string>, reason: Option<string>, ttlMinutes: int): seq<(string, string)>
  {
    [("Workflow ID", WorkflowIdCell(workflowId)),
     ("Requestor", RequestorDisplay(requestor, requestorEmail)),
     ("Script", ScriptCell(scriptId)),
     ("Target Agents", Join(targets, ", ")),
     ("Reason", OrDefault(reason, "No reason provided")),
     ("Expires In", Span("color: #fde68a;", IntToString(ttlMinutes) + " minutes"))]
  }

  /** `build_approval_request_email`: six rows in order, the reason
      defaulting to "No reason provided"; a sky-blue review button exactly
      when there is a dashboard address; the footer names the requestor. */
  method ApprovalRequestEmail(workflowId: string, scriptId: string, requestor: string, requestorEmail: Option<string>,
                              targets: seq<string>, reason: Option<string>, ttlMinutes: int,
                              dashboardUrl: Option<string>) returns (email: Layout)
    ensures email.title == "⏳ Workflow Approval Required" && email.titleColor == "#fde68a"
    ensures Carries(email.rows, RequestDetails(workflowId, scriptId, requestor, requestorEmail, targets, reason, ttlMinutes))
    ensures email.button.Some? <==> Truthy(dashboardUrl)
    ensures email.button.Some? ==>
      email.button.value == Button("Open Dashboard to Review", dashboardUrl.value,
                                   ButtonColor("Open Dashboard to Review", "⏳ Workflow Approval Required"))
    ensures email.footer == Some("Requested by: " + requestor)
  {
    var details := RequestDetails(workflowId, scriptId, requestor, requestorEmail, targets, reason, ttlMinutes);
    email := BuildEmailHtml("⏳ Workflow Approval Required", "#fde68a",
                            "A new workflow has been submitted and requires your approval.", Some(details),
                            Some("Open Dashboard to Review"), dashboardUrl, Some("Requested by: " + requestor));
  }

  /** The rows of the approved notice, in order. */
  function ApprovedDetails(workflowId: string, scriptId: string, targets: seq<string>, approvedBy: string,
                           approvalNotes: Option<string>): seq<(string, string)>
  {
    [("Workflow ID", WorkflowIdCell(workflowId)),
     ("Script", ScriptCell(scriptId)),
     ("Target Agents", Join(targets, ", ")),
     ("Approved By", Span("color: #a7f3d0;", approvedBy)),
     ("Notes", OrDefault(approvalNotes, "No additional notes"))]
  }

  /** `build_workflow_approved_email`: the notes default to "No additional
      notes"; an emerald button exactly when there is a dashboard
      address. */
  method WorkflowApprovedEmail(workflowId: string, scriptId: string, targets: seq<string>, approvedBy: string,
                               approvalNotes: Option<string>, dashboardUrl: Option<string>) returns (email: Layout)
    ensures email.title == "✓ Workflow Approved" && email.titleColor == "#a7f3d0"
    ensures Carries(email.rows, ApprovedDetails(workflowId, scriptId, targets, approvedBy, approvalNotes))
    ensures email.button.Some? <==> Truthy(dashboardUrl)
    ensures email.button.Some? ==> email.button.value == Button("View in Dashboard", dashboardUrl.value,
                                   ButtonColor("View in Dashboard", "✓ Workflow Approved"))
    ensures email.footer == Some("You can now execute this workflow from the dashboard.")
  {
    var details := ApprovedDetails(workflowId, scriptId, targets, approvedBy, approvalNotes);
    email := BuildEmailHtml("✓ Workflow Approved", "#a7f3d0",
                            "Your workflow request has been approved and is ready for execution.", Some(details),
                            CaptionIf("View in Dashboard", dashboardUrl), dashboardUrl,
                            Some("You can now execute this workflow from the dashboard."));
  }

  /** The rows of the denied notice, in order. */
  function DeniedDetails(workflowId: string, scriptId: string, targets: seq<string>, deniedBy: string,
                         denialReason: Option<string>): seq<(string, string)>
  {
    [("Workflow ID", WorkflowIdCell(workflowId)),
     ("Script", ScriptCell(scriptId)),
     ("Target Agents", Join(targets, ", ")),
     ("Denied By", Span("color: #fecaca;", deniedBy)),
     ("Reason", Span("color: #fecaca;", OrDefault(denialReason, "No reason provided")))]
  }

  /** `build_workflow_denied_email`: the reason defaults to "No reason
      provided"; a rose button exactly when there is a dashboard
      address. */
  method WorkflowDeniedEmail(workflowId: string, scriptId: string, targets: seq<string>, deniedBy: string,
                             denialReason: Option<string>, dashboardUrl: Option<string>) returns (email: Layout)
    ensures email.title == "✗ Workflow Denied" && email.titleColor == "#fecaca"
    ensures Carries(email.rows, DeniedDetails(workflowId, scriptId, targets, deniedBy, denialReason))
    ensures email.button.Some? <==> Truthy(dashboardUrl)
    ensures email.button.Some? ==> email.button.value == Button("View in Dashboard", dashboardUrl.value,
                                   ButtonColor("View in Dashboard", "✗ Workflow Denied"))
    ensures email.footer == Some("Please contact the approver if you have questions about this decision.")
  {
    var details := DeniedDetails(workflowId, scriptId, targets, deniedBy, denialReason);
    email := BuildEmailHtml("✗ Workflow Denied", "#fecaca", "Your workflow request has been denied.", Some(details),
                            CaptionIf("View in Dashboard", dashboardUrl), dashboardUrl,
                            Some("Please contact the approver if you have questions about this decision."));
  }

  /** How one agent's exit code is reported. */
  function StatusText(code: int): (r: string)
    ensures r == "Success" <==> code == 0
  {
    if code == 0 then "Success" else "Failed (exit: " + IntToString(code) + ")"
  }

  function StatusColor(code: int): (r: string)
    ensures r == "#a7f3d0" <==> code == 0
  {
    if code == 0 then "#a7f3d0" else "#fecaca"
  }

  function ResultLine(agent: string, code: int): string
  {
    Span("color: " + StatusColor(code) + ";", agent + ": " + StatusText(code)) + "<br>"
  }

  /** The result lines of the agents, in order. */
  function ResultLines(codes: seq<(string, int)>): string
  {
    if codes == [] then "" else ResultLines(codes[..|codes| - 1]) + ResultLine(codes[|codes| - 1].0, codes[|codes| - 1].1)
  }

  lemma ConcatAssoc(x: string, y: string, z: string)
    ensures x + y + z == x + (y + z)
  {
  }

  /** The result lines of two runs of agents are those of the first
      followed by those of the second. */
  lemma {:induction false} ResultLinesAppend(a: seq<(string, int)>, b: seq<(string, int)>)
    ensures ResultLines(a + b) == ResultLines(a) + ResultLines(b)
    decreases |b|
  {
    if b != [] {
      var init := b[..|b| - 1];
      var last := b[|b| - 1];
      assert (a + b)[..|a + b| - 1] == a + init;
      assert (a + b)[|a + b| - 1] == last;
      ResultLinesAppend(a, init);
      ConcatAssoc(ResultLines(a), ResultLines(init), ResultLine(last.0, last.1));
    } else {
      assert a + b == a;
    }
  }

  /** The results cell: the agents' lines, or "Execution completed"
      when there are no exit codes. */
  function ResultsText(exitCodes: Option<seq<(string, int)>>): string
  {
    if exitCodes.None? || exitCodes.value == [] then "Execution completed" else ResultLines(exitCodes.value)
  }

  /** The rows of the executed notice, in order. */
  function ExecutedDetails(workflowId: string, scriptId: string, targets: seq<string>, executedBy: string,
                           results: string): seq<(string, string)>
  {
    [("Workflow ID", WorkflowIdCell(workflowId)),
     ("Script", ScriptCell(scriptId)),
     ("Target Agents", Join(targets, ", ")),
     ("Executed By", executedBy),
     ("Results", results)]
  }

  /** The results loop of `build_workflow_executed_email`: one line per
      agent in order, or "Execution completed" when there are no exit
      codes. */
  method BuildResults(exitCodes: Option<seq<(string, int)>>) returns (html: string)
    ensures html == ResultsText(exitCodes)
  {
    if exitCodes.None? || exitCodes.value == [] {
      return "Execution completed";
    }
    var codes := exitCodes.value;
    html := "";
    var i := 0;
    while i < |codes|
      invariant 0 <= i <= |codes|
      invariant html == ResultLines(codes[..i])
    {
      assert codes[..i + 1][..i] == codes[..i];
      html := html + ResultLine(codes[i].0, codes[i].1);
      i := i + 1;
    }
    assert codes[..i] == codes;
  }

  /** `build_workflow_executed_email`: the results row lists every agent;
      a sky-blue button exactly when there is a dashboard address. */
  method WorkflowExecutedEmail(workflowId: string, scriptId: string, targets: seq<string>, executedBy: string,
                               exitCodes: Option<seq<(string, int)>>, dashboardUrl: Option<string>)
    returns (email: Layout)
    ensures email.title == "⚡ Workflow Executed" && email.titleColor == "#38bdf8"
    ensures Carries(email.rows, ExecutedDetails(workflowId, scriptId, targets, executedBy, ResultsText(exitCodes)))
    ensures email.button.Some? <==> Truthy(dashboardUrl)
    ensures email.button.Some? ==> email.button.value == Button("View Details", dashboardUrl.value,
                                   ButtonColor("View Details", "⚡ Workflow Executed"))
    ensures email.footer == Some("Check the dashboard for full execution logs.")
  {
    var results := BuildResults(exitCodes);
    var details := ExecutedDetails(workflowId, scriptId, targets, executedBy, results);
    email := BuildEmailHtml("⚡ Workflow Executed", "#38bdf8", "Your approved workflow has been executed.",
                            Some(details), CaptionIf("View Details", dashboardUrl), dashboardUrl,
                            Some("Check the dashboard for full execution logs."));
  }

  /** `to`/`cc` as given: one address or a list of them. */
  datatype Recipients = One(addr: string) | Many(addrs: seq<string>)

  function AsList(r: Recipients): seq<string>
  {
    match r
    case One(a) => [a]
    case Many(s) => s
  }

  /** The address list with each address stripped and the blank ones
      dropped. */
  function CleanAddresses(addrs: seq<string>): (r: seq<string>)
    ensures |r| <= |addrs|
  {
    if addrs == [] then []
    else (if Strip(addrs[0]) != "" then [Strip(addrs[0])] else []) + CleanAddresses(addrs[1..])
  }

  /** Every address is non-blank and has no surrounding whitespace. */
  predicate AllClean(addrs: seq<string>)
  {
    forall i :: 0 <= i < |addrs| ==> addrs[i] != "" && Trimmed(addrs[i])
  }

  lemma AllCleanConcat(a: seq<string>, b: seq<string>)
    requires AllClean(a) && AllClean(b)
    ensures AllClean(a + b)
  {
    forall i | 0 <= i < |a + b| ensures (a + b)[i] != "" && Trimmed((a + b)[i]) {
      if i >= |a| {
        assert (a + b)[i] == b[i - |a|];
      } else {
        assert (a + b)[i] == a[i];
      }
    }
  }

  /** Every cleaned address is non-blank and stripped. */
  lemma {:induction false} CleanShape(addrs: seq<string>)
    ensures AllClean(CleanAddresses(addrs))
  {
    if addrs != [] {
      var rest := CleanAddresses(addrs[1..]);
      CleanShape(addrs[1..]);
      var first := Strip(addrs[0]);
      if first != "" {
        var r := [first] + rest;
        assert CleanAddresses(addrs) == r;
        forall i | 0 <= i < |r| ensures r[i] != "" && Trimmed(r[i]) {
          if i > 0 {
            assert r[i] == rest[i - 1];
          }
        }
      } else {
        assert CleanAddresses(addrs) == rest;
      }
    }
  }

  /** Every address that is not blank survives, stripped. */
  lemma {:induction false} CleanKeeps(addrs: seq<string>, i: int)
    requires 0 <= i < |addrs| && Strip(addrs[i]) != ""
    ensures Strip(addrs[i]) in CleanAddresses(addrs)
  {
    var first := Strip(addrs[0]);
    var rest := CleanAddresses(addrs[1..]);
    if i == 0 {
      assert CleanAddresses(addrs)[0] == first;
    } else {
      assert addrs[1..][i - 1] == addrs[i];
      CleanKeeps(addrs[1..], i - 1);
      if first != "" {
        assert CleanAddresses(addrs) == [first] + rest;
      } else {
        assert CleanAddresses(addrs) == rest;
      }
    }
  }

  /** Cleaning a clean list changes nothing. */
  lemma {:induction false} CleanIdem(addrs: seq<string>)
    ensures CleanAddresses(CleanAddresses(addrs)) == CleanAddresses(addrs)
  {
    if addrs != [] {
      var rest := CleanAddresses(addrs[1..]);
      CleanIdem(addrs[1..]);
      var first := Strip(addrs[0]);
      if first != "" {
        var c := [first] + rest;
        assert CleanAddresses(addrs) == c;
        StripNoop(first);
        assert c[1..] == rest;
        assert CleanAddresses(c) == [first] + CleanAddresses(rest);
      } else {
        assert CleanAddresses(addrs) == rest;
      }
    }
  }

  /** `re.sub(r"<[^>]+>", "", s)`: each `<`, at least one character that
      is not `>`, and the next `>` is removed, scanning left to right. */
  function StripTags(s: string): (r: string)
    ensures forall c :: c in r ==> c in s
    ensures |r| <= |s|
    decreases |s|
  {
    if s == [] then []
    else if s[0] == '<' && |s| > 1 && s[1] != '>' && FindChar(s[1..], '>').Some? then
      StripTags(s[FindChar(s[1..], '>').value + 2..])
    else [s[0]] + StripTags(s[1..])
  }

  /** No tag is left: every `<` is followed directly by `>` or by no `>`
      at all. */
  predicate NoTags(s: string)
  {
    forall i :: 0 <= i < |s| && s[i] == '<' ==> (i + 1 < |s| && s[i + 1] == '>') || '>' !in s[i + 1..]
  }

  lemma {:induction false} StripTagsNoTags(s: string)
    ensures NoTags(StripTags(s))
    decreases |s|
  {
    if s != [] {
      if s[0] == '<' && |s| > 1 && s[1] != '>' && FindChar(s[1..], '>').Some? {
        StripTagsNoTags(s[FindChar(s[1..], '>').value + 2..]);
      } else {
        var t := StripTags(s[1..]);
        StripTagsNoTags(s[1..]);
        var r := StripTags(s);
        assert r == [s[0]] + t;
        forall i | 0 <= i < |r| && r[i] == '<' ensures (i + 1 < |r| && r[i + 1] == '>') || '>' !in r[i + 1..] {
          if i == 0 {
            if |s| > 1 && s[1] == '>' {
              assert s[1..][0] == '>';
              assert t[0] == '>';
            } else if |s| > 1 {
              assert '>' !in s[1..];
              assert r[1..] == t;
            }
          } else {
            assert r[i] == t[i - 1];
            assert r[i + 1..] == t[i..];
          }
        }
      }
    }
  }

  /** The plain-text part when none is given: tags removed, whitespace
      runs collapsed to one space, surrounding whitespace trimmed. */
  function TextFallback(html: string): string
  {
    Strip(CollapseSpaces(StripTags(html)))
  }

  /** A stretch of a string without adjacent whitespace has none either. */
  lemma NoDoubleSlice(s: string, lo: nat, hi: nat)
    requires lo <= hi <= |s| && NoDoubleSpace(s)
    ensures NoDoubleSpace(s[lo..hi])
  {
    var t := s[lo..hi];
    forall i | 0 <= i < |t| - 1 ensures !(IsSpace(t[i]) && IsSpace(t[i + 1])) {
      assert t[i] == s[lo + i] && t[i + 1] == s[lo + i + 1];
    }
  }

  /** The fallback text has no whitespace at its ends and no two
      whitespace characters side by side. */
  lemma TextFallbackShape(html: string)
    ensures Trimmed(TextFallback(html))
    ensures NoDoubleSpace(TextFallback(html))
  {
    CollapseNoDouble(StripTags(html));
    StripKeepsNoDouble(CollapseSpaces(StripTags(html)));
  }

  /** Stripping keeps a string free of adjacent whitespace. */
  lemma StripKeepsNoDouble(c: string)
    requires NoDoubleSpace(c)
    ensures Trimmed(Strip(c)) && NoDoubleSpace(Strip(c))
  {
    var l := LStrip(c);
    NoDoubleSlice(c, |c| - |l|, |c|);
    var r := RStrip(l);
    NoDoubleSlice(l, 0, |r|);
  }

  /** What `send_email` hands to the transport. */
  datatype Envelope = Envelope(subject: string, sender: string, toHeader: string, ccHeader: Option<string>,
                               textBody: string, htmlBody: string, recipients: seq<string>)

  /** The cleaned copy recipients; none when `cc` is not given. */
  function CcList(cc: Option<Recipients>): seq<string>
  {
    if cc.Some? then CleanAddresses(AsList(cc.value)) else []
  }

  /** The decisions of `send_email` before anything is sent: nothing when
      no recipient is left after cleaning; otherwise `To` lists the
      cleaned recipients, `Cc` appears only with copy recipients, the
      envelope goes to the recipients then the copies, the sender defaults
      to the configured one and the text part to the HTML's fallback. */
  function PrepareEmail(to: Recipients, subject: string, htmlBody: string, textBody: Option<string>,
                        fromAddr: Option<string>, cc: Option<Recipients>, configuredSender: string): (r: Option<Envelope>)
    ensures r.None? <==> CleanAddresses(AsList(to)) == []
  {
    var toList := CleanAddresses(AsList(to));
    if toList == [] then None
    else
      Some(Envelope(subject, OrDefault(fromAddr, configuredSender), Join(toList, ", "),
                    if CcList(cc) != [] then Some(Join(CcList(cc), ", ")) else None,
                    OrDefault(textBody, TextFallback(htmlBody)), htmlBody, toList + CcList(cc)))
  }

  /** The envelope goes to the cleaned recipients followed by the cleaned
      copies, and each of them is a non-blank stripped address; the `Cc`
      header is present exactly when some copy recipient survives; the
      text part falls back to the HTML's text only when none is given. */
  lemma PrepareEmailProps(to: Recipients, subject: string, htmlBody: string, textBody: Option<string>,
                          fromAddr: Option<string>, cc: Option<Recipients>, configuredSender: string, e: Envelope)
    requires PrepareEmail(to, subject, htmlBody, textBody, fromAddr, cc, configuredSender) == Some(e)
    ensures e.recipients == CleanAddresses(AsList(to)) + CcList(cc)
    ensures AllClean(e.recipients)
    ensures e.ccHeader.Some? <==> CcList(cc) != []
    ensures e.textBody == OrDefault(textBody, TextFallback(htmlBody))
  {
    CleanShape(AsList(to));
    if cc.Some? {
      CleanShape(AsList(cc.value));
    }
    AllCleanConcat(CleanAddresses(AsList(to)), CcList(cc));
  }

  /** When no recipient holds a comma, the `To` header splits back into
      the cleaned recipients. */
  lemma ToHeaderRoundTrip(to: Recipients, subject: string, htmlBody: string, textBody: Option<string>,
                          fromAddr: Option<string>, cc: Option<Recipients>, configuredSender: string, e: Envelope)
    requires PrepareEmail(to, subject, htmlBody, textBody, fromAddr, cc, configuredSender) == Some(e)
    requires forall a :: a in CleanAddresses(AsList(to)) ==> ',' !in a
    ensures Split(e.toHeader, ", ") == CleanAddresses(AsList(to))
  {
    var toList := CleanAddresses(AsList(to));
    assert toList != [] && e.toHeader == Join(toList, ", ");
    forall k | 0 <= k < |toList| ensures ", "[0] !in toList[k] {
      assert toList[k] in toList;
    }
    SplitJoin(toList, ", ");
  }
}
