/** The workflow approval routes: a workflow is created `pending`, collects
    approvals until it reaches its required count and becomes `approved`
    (or is `denied`), and an approved workflow runs once, passing through
    `executing` to `executed` or `failed`. Every route records what it did
    in the audit log. The database is the `WorkflowStore` class. */
module Workflows {
  import opened Base
  import opened Text
  import opened ODict
  import opened EmailLayout
  import Deps

  const Pending: string := "pending"
  const Approved: string := "approved"
  const Denied: string := "denied"
  const Executing: string := "executing"
  const Executed: string := "executed"
  const FailedStatus: string := "failed"
  const Expired: string := "expired"

  datatype Approval = Approval(approver: string, level: int)

  /** A row of the workflows table with its approvals. */
  datatype Workflow = Workflow(id: string, scriptId: string, targets: seq<string>, requestor: string,
                               requiredLevels: int, approvals: seq<Approval>, status: string,
                               scriptParams: Option<Dict<string, string>>, notifyEmail: string, requestorEmail: string)

  datatype AuditEntry = AuditEntry(workflowId: string, action: string, user: string, note: string)

  /** A lower-case hexadecimal digit, as `uuid4().hex` writes them. */
  predicate HexDigit(c: char)
  {
    '0' <= c <= '9' || 'a' <= c <= 'f'
  }

  /** `f"wf_{uuid.uuid4().hex[:12]}"`, with the UUID's 32 hex digits given. */
  function WorkflowId(uuidHex: string): (r: string)
    requires |uuidHex| == 32 && forall i :: 0 <= i < 32 ==> HexDigit(uuidHex[i])
    ensures |r| == 15 && r[..3] == "wf_" && forall i :: 3 <= i < 15 ==> HexDigit(r[i])
  {
    "wf_" + uuidHex[..12]
  }

  /** Workflow ids are keys of the workflows table: two UUIDs give the same
      id exactly when their first twelve digits agree, so UUIDs that differ
      there never collide. */
  lemma WorkflowIdSame(u: string, v: string)
    requires |u| == 32 && forall i :: 0 <= i < 32 ==> HexDigit(u[i])
    requires |v| == 32 && forall i :: 0 <= i < 32 ==> HexDigit(v[i])
    ensures WorkflowId(u) == WorkflowId(v) <==> u[..12] == v[..12]
  {
    if WorkflowId(u) == WorkflowId(v) {
      assert WorkflowId(u)[3..] == u[..12];
      assert WorkflowId(v)[3..] == v[..12];
    }
  }

  /** What `approve_workflow` answers on success. */
  datatype ApproveReply = FullyApproved | ApprovalAdded(approvals: int, required: int)

  /** What `deny_workflow` answers on success. */
  datatype DenyReply = DenyReply(denier: string, reason: string)

  /** The status checks of `execute_workflow`, in order, then the script
      and target checks. */
  function ExecuteGuard(w: Workflow): (r: Outcome<()>)
    ensures r.Ok? <==> w.status == Approved && w.scriptId != "" && w.targets != []
    ensures r.Fail? ==> r.status == 400
  {
    if w.status == Executed then Fail(400, "Workflow has already been executed")
    else if w.status == Denied then Fail(400, "Workflow was denied")
    else if w.status == Expired then Fail(400, "Workflow has expired")
    else if w.status != Approved then Fail(400, "Workflow is not approved (status: " + w.status + ")")
    else if w.scriptId == "" then Fail(400, "Workflow has no script")
    else if w.targets == [] then Fail(400, "Workflow has no targets")
    else Ok(())
  }

  /** A workflow that has run, successfully or not, is refused by the
      execute checks: a workflow runs at most once. */
  lemma RunsOnce(w: Workflow)
    ensures ExecuteGuard(w.(status := Executed)) == Fail(400, "Workflow has already been executed")
    ensures ExecuteGuard(w.(status := FailedStatus)) == Fail(400, "Workflow is not approved (status: failed)")
    ensures ExecuteGuard(w.(status := Executing)) == Fail(400, "Workflow is not approved (status: executing)")
  {
  }

  /** The parameters a run receives: the request's when non-empty, else
      the stored ones, else none. */
  function ExecParams(requested: Option<Dict<string, string>>, stored: Option<Dict<string, string>>): (r: Dict<string, string>)
    ensures requested.Some? && requested.value != [] ==> r == requested.value
    ensures !(requested.Some? && requested.value != []) && stored.Some? ==> r == stored.value
    ensures !(requested.Some? && requested.value != []) && stored.None? ==> r == []
  {
    if requested.Some? && requested.value != [] then requested.value
    else if stored.Some? && stored.value != [] then stored.value
    else []
  }

  /** `approver_jwt.get('sub') or approver_jwt.get('username') or 'approver'` */
  function ApproverName(c: Deps.Claims): string
  {
    OrElse(OrElse(c.sub, c.username), Some("approver")).value
  }

  /** A row of the re-execution requests table. */
  datatype ReexecRequest = ReexecRequest(workflowId: string, status: string, requesterEmail: string)

  /** The checks of `approve_reexecution`: `issued` is the id of the token
      the database issues for the request, if it issues one. The answer is
      the approver's name and the token id. */
  function ApproveReexecution(requests: map<int, ReexecRequest>, workflowId: string, requestId: int,
                              claims: Deps.Claims, issued: Option<int>): (r: Outcome<(string, int)>)
  {
    if requestId !in requests then Fail(404, "Approval request not found")
    else if requests[requestId].workflowId != workflowId then Fail(400, "Mismatched workflow")
    else if requests[requestId].status != Pending then Fail(400, "Request not pending")
    else if issued.None? then Fail(500, "Failed to approve request")
    else Ok((ApproverName(claims), issued.value))
  }

  /** A re-execution is approved only for a known, pending request of this
      workflow for which a token was issued; the checks answer 404, 400,
      400 and 500 in that order. */
  lemma ApproveReexecutionIff(requests: map<int, ReexecRequest>, workflowId: string, requestId: int,
                              claims: Deps.Claims, issued: Option<int>)
    ensures var r := ApproveReexecution(requests, workflowId, requestId, claims, issued);
      (r.Ok? <==> requestId in requests && requests[requestId].workflowId == workflowId &&
                  requests[requestId].status == Pending && issued.Some?) &&
      (r.Ok? ==> r.value.1 == issued.value && r.value.0 != "") &&
      (requestId !in requests ==> r.Fail? && r.status == 404) &&
      (requestId in requests && issued.None? ==> r.Fail? && r.status != 404 && (r.status == 500 <==>
        requests[requestId].workflowId == workflowId && requests[requestId].status == Pending))
  {
  }

  /** `build_email_html` (light theme): the button appears exactly when
      both its text and its address are non-empty, the footer exactly
      when it is non-empty. */
  method BuildEmail(title: string, titleColor: string, accentColor: string, message: string,
                    details: seq<(string, string)>, buttonText: Option<string>, buttonUrl: Option<string>,
                    buttonColor: string, footer: Option<string>) returns (email: Layout)
    ensures email.title == title && email.titleColor == titleColor && email.accentColor == accentColor &&
            email.message == message
    ensures Carries(email.rows, details) && Alternates(email.rows, "#f8fafc", "#ffffff")
    ensures email.button.Some? <==> Truthy(buttonText) && Truthy(buttonUrl)
    ensures email.button.Some? ==> email.button.value == Button(buttonText.value, buttonUrl.value, buttonColor)
    ensures email.footer.Some? <==> Truthy(footer)
    ensures email.footer.Some? ==> email.footer == footer
  {
    var rows := BuildRows(details, "#f8fafc", "#ffffff");
    var button: Option<Button> := None;
    if Truthy(buttonText) && Truthy(buttonUrl) {
      button := Some(Button(buttonText.value, buttonUrl.value, buttonColor));
    }
    var foot: Option<string> := None;
    if Truthy(footer) {
      foot := footer;
    }
    email := Layout(title, titleColor, accentColor, message, rows, button, foot);
  }

  /** The workflows table, its approvals and the audit log. */
  class WorkflowStore {
    var workflows: map<string, Workflow>
    var audit: seq<AuditEntry>

    /** Every workflow is stored under its id, and none is `approved`
        without its required number of approvals. */
    ghost predicate Valid()
      reads this
    {
      forall id :: id in workflows ==>
        workflows[id].id == id &&
        (workflows[id].status == Approved ==> |workflows[id].approvals| >= workflows[id].requiredLevels)
    }

    constructor()
      ensures workflows == map[] && audit == [] && Valid()
    {
      workflows := map[];
      audit := [];
    }

    /** `create_workflow`: a new `pending` workflow without approvals under
        the fresh id, and a `created` audit entry. */
    method Create(id: string, scriptId: string, targets: seq<string>, requestor: string, requiredLevels: int,
                  notifyEmail: string, requestorEmail: string, reason: string,
                  scriptParams: Option<Dict<string, string>>) returns (w: Workflow)
      requires Valid() && id !in workflows
      modifies this
      ensures Valid()
      ensures w == Workflow(id, scriptId, targets, requestor, requiredLevels, [], Pending, scriptParams, notifyEmail, requestorEmail)
      ensures workflows == old(workflows)[id := w]
      ensures audit == old(audit) + [AuditEntry(id, "created", requestor, "Workflow created: " + reason)]
    {
      w := Workflow(id, scriptId, targets, requestor, requiredLevels, [], Pending, scriptParams, notifyEmail, requestorEmail);
      workflows := workflows[id := w];
      audit := audit + [AuditEntry(id, "created", requestor, "Workflow created: " + reason)];
    }

    /** `approve_workflow`: a pending workflow records the approver once;
        it becomes `approved` when the number of approvals reaches the
        required count, whatever the levels given. */
    method Approve(id: string, approver: string, level: int) returns (r: Outcome<ApproveReply>)
      requires Valid()
      modifies this
      ensures Valid()
      ensures id !in old(workflows) ==> r == Fail(404, "Workflow not found")
      ensures id in old(workflows) && old(workflows)[id].status != Pending ==>
        r == Fail(400, "Workflow is already " + old(workflows)[id].status)
      ensures id in old(workflows) && old(workflows)[id].status == Pending &&
              (exists a :: a in old(workflows)[id].approvals && a.approver == approver) ==>
        r == Fail(400, "Already approved by this user")
      ensures r.Fail? ==> workflows == old(workflows) && audit == old(audit)
      ensures r.Ok? ==>
        var w := old(workflows)[id];
        var approvals := w.approvals + [Approval(approver, level)];
        id in old(workflows) && w.status == Pending && (forall a :: a in w.approvals ==> a.approver != approver) &&
        (|approvals| >= w.requiredLevels ==>
          r.value == FullyApproved &&
          workflows == old(workflows)[id := w.(approvals := approvals, status := Approved)] &&
          audit == old(audit) + [AuditEntry(id, "fully_approved", approver, "Workflow fully approved")]) &&
        (|approvals| < w.requiredLevels ==>
          r.value == ApprovalAdded(|approvals|, w.requiredLevels) &&
          workflows == old(workflows)[id := w.(approvals := approvals)] &&
          audit == old(audit) + [AuditEntry(id, "partial_approval", approver,
                                            "Approval " + IntToString(|approvals|) + "/" + IntToString(w.requiredLevels))])
    {
      if id !in workflows {
        return Fail(404, "Workflow not found");
      }
      var w := workflows[id];
      if w.status != Pending {
        return Fail(400, "Workflow is already " + w.status);
      }
      if exists a :: a in w.approvals && a.approver == approver {
        return Fail(400, "Already approved by this user");
      }
      var approvals := w.approvals + [Approval(approver, level)];
      if |approvals| >= w.requiredLevels {
        workflows := workflows[id := w.(approvals := approvals, status := Approved)];
        audit := audit + [AuditEntry(id, "fully_approved", approver, "Workflow fully approved")];
        return Ok(FullyApproved);
      }
      workflows := workflows[id := w.(approvals := approvals)];
      audit := audit + [AuditEntry(id, "partial_approval", approver,
                                   "Approval " + IntToString(|approvals|) + "/" + IntToString(w.requiredLevels))];
      r := Ok(ApprovalAdded(|approvals|, w.requiredLevels));
    }

    /** `execute_workflow`: an approved workflow with a script and targets
        is marked `executing`, then `executed` when the script call
        (`scriptResult`) succeeds or `failed` when it raises, whose error
        is passed on. `caller` is the admin's name. */
    method Execute(id: string, caller: string, scriptResult: Outcome<string>) returns (r: Outcome<string>)
      requires Valid()
      modifies this
      ensures Valid()
      ensures id !in old(workflows) ==> r == Fail(404, "Workflow not found") && workflows == old(workflows) && audit == old(audit)
      ensures id in old(workflows) && ExecuteGuard(old(workflows)[id]).Fail? ==>
        r == Fail(400, ExecuteGuard(old(workflows)[id]).detail) && workflows == old(workflows) && audit == old(audit)
      ensures id in old(workflows) && ExecuteGuard(old(workflows)[id]).Ok? && scriptResult.Ok? ==>
        r == scriptResult &&
        workflows == old(workflows)[id := old(workflows)[id].(status := Executed)] &&
        audit == old(audit) + [AuditEntry(id, "executed", caller, "Workflow executed successfully")]
      ensures id in old(workflows) && ExecuteGuard(old(workflows)[id]).Ok? && scriptResult.Fail? ==>
        r == scriptResult &&
        workflows == old(workflows)[id := old(workflows)[id].(status := FailedStatus)] &&
        audit == old(audit) + [AuditEntry(id, "execution_failed", caller, scriptResult.detail)]
    {
      if id !in workflows {
        return Fail(404, "Workflow not found");
      }
      var w := workflows[id];
      var guard := ExecuteGuard(w);
      if guard.Fail? {
        return Fail(guard.status, guard.detail);
      }
      workflows := workflows[id := w.(status := Executing)];
      if scriptResult.Ok? {
        workflows := workflows[id := w.(status := Executed)];
        audit := audit + [AuditEntry(id, "executed", caller, "Workflow executed successfully")];
      } else {
        workflows := workflows[id := w.(status := FailedStatus)];
        audit := audit + [AuditEntry(id, "execution_failed", caller, scriptResult.detail)];
      }
      r := scriptResult;
    }

    /** `deny_workflow`: only a pending workflow is denied; the denier
        defaults to the caller's name (`unknown` without one) and the
        reason to `Denied`. */
    method Deny(id: string, denier: Option<string>, reason: Option<string>, callerName: Option<string>)
      returns (r: Outcome<DenyReply>)
      requires Valid()
      modifies this
      ensures Valid()
      ensures id !in old(workflows) ==> r == Fail(404, "Workflow not found")
      ensures id in old(workflows) && old(workflows)[id].status != Pending ==>
        r == Fail(400, "Cannot deny workflow with status: " + old(workflows)[id].status)
      ensures r.Fail? ==> workflows == old(workflows) && audit == old(audit)
      ensures r.Ok? <==> id in old(workflows) && old(workflows)[id].status == Pending
      ensures r.Ok? ==>
        r.value.denier == (if Truthy(denier) then denier.value else callerName.GetOr("unknown")) &&
        r.value.reason == (if Truthy(reason) then reason.value else "Denied") &&
        workflows == old(workflows)[id := old(workflows)[id].(status := Denied)] &&
        audit == old(audit) + [AuditEntry(id, "denied", r.value.denier, r.value.reason)]
    {
      if id !in workflows {
        return Fail(404, "Workflow not found");
      }
      var w := workflows[id];
      if w.status != Pending {
        return Fail(400, "Cannot deny workflow with status: " + w.status);
      }
      var who := if Truthy(denier) then denier.value else callerName.GetOr("unknown");
      var why := if Truthy(reason) then reason.value else "Denied";
      workflows := workflows[id := w.(status := Denied)];
      audit := audit + [AuditEntry(id, "denied", who, why)];
      r := Ok(DenyReply(who, why));
    }

    /** `delete_workflow`: a known workflow is removed; nothing else
        changes. */
    method Delete(id: string) returns (r: Outcome<string>)
      requires Valid()
      modifies this
      ensures Valid()
      ensures r.Ok? <==> id in old(workflows)
      ensures r.Fail? ==> r == Fail(404, "Workflow not found") && workflows == old(workflows)
      ensures r.Ok? ==> r.value == id && workflows == old(workflows) - {id}
      ensures audit == old(audit)
    {
      if id !in workflows {
        return Fail(404, "Workflow not found");
      }
      workflows := workflows - {id};
      r := Ok(id);
    }
  }
}
