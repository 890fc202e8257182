# Smart-card proxy and workflow back end, modelled in Dafny

This project models the core of a small operations platform in Dafny:

- **TLS authenticating reverse proxy** (`ssl_proxy.py`)
  - Routes each request path to a backend by the longest path prefix.
  - Authenticates the client by smart-card certificate, by an NTLM handshake, or by a session cookie.
  - Rewrites the request headers and injects the caller's identity.
- **FastAPI dependencies** (`deps.py`)
  - Turn proxy identity headers, admin/agent tokens and approver JWTs into a user.
  - Gate endpoints by role.
- **Certificate auto-login middleware and static file serving** (`main.py`)
- **Approval workflow store** (`wrk.py`)
  - Create, approve level by level, execute once, deny, delete.
  - Re-execution approval.
- **Report runner** (`reports.py`)
  - Script registry, run records, cancellation, history.
  - The WebSocket subscriber lists.
- **Notification mail builder** (`mailer.py`)
  - The HTML layout of each notification.
  - Recipient cleaning, plain-text fallback and the envelope.

The model is organised as follows:

- One module per source file: `ProxyConfig`, `ProxyRouter`, `HttpMessage`, `Ntlm`, `ProxyAuth` and `ProxyForward` for the proxy; then `Deps`, `MainApp`, `Workflows`, `EmailLayout`, `Reports` and `Mailer`.
- A few support modules:
  - `Base`: Option, Outcome.
  - `Text`: Python string methods.
  - `ODict`: Python's insertion-ordered dict as a sequence of pairs.
  - `Sorting`: Python's stable `sorted(..., reverse=True)`, proved sorted, a permutation and stable.
  - `Base64`: CPython's lenient `b64decode`.
  - `Utf16`: UTF-16-LE.
- Objects whose fields the source updates in place are classes:
  - the router;
  - the proxy's session table;
  - the execution-token table;
  - the middleware's account and session tables;
  - the workflow store;
  - the report service.
- Their methods state the whole new state. Pure computations are functions, with lemmas relating them to the source's promises.

The clock, random values and external services are parameters:

- the clock: `now`;
- random values: the session id, the NTLM challenge bytes, uuids and run ids;
- external services: the JWT verifier, the session lookup, the script runner's outcome, and the files on disk.

## Model

| member | source | states |
|---|---|---|
| ProxyConfig.ExpandEnvVarsUnset | ssl_proxy.py:111-130 | with no environment variable set, `${NAME}` and `$NAME` references are all kept as written |
| ProxyConfig.ExpandEnvVarsNoDollar | ssl_proxy.py:111-130 | a value without `$` is returned unchanged whatever the environment |
| ProxyConfig.ExpandBracedReference | ssl_proxy.py:116-122 | `${NAME}` becomes the variable's value when set and stays literally `${NAME}` when unset |
| ProxyConfig.ExpandBareKeepsUnset | ssl_proxy.py:124-130 | the second (`$NAME`) pass leaves an unresolved `${NAME}` alone |
| ProxyConfig.ExpandBareReference | ssl_proxy.py:124-130 | `$NAME` followed by a non-name character is replaced by the variable's value and the rest is kept |
| ProxyRouter.Router.constructor | ssl_proxy.py:402-410 | the backend list is sorted by descending prefix length and is a permutation of the configured backends |
| ProxyRouter.Router.Route | ssl_proxy.py:412-421 | when some prefix matches, the result is a configured backend whose prefix matches and is the longest, and the first such in sorted order; otherwise the default backend (looked up, possibly absent), or nothing when no default is set |
| ProxyRouter.FirstMatchLongest | ssl_proxy.py:414-416 | in the longest-first order, the first backend whose prefix matches is configured and no configured matching prefix is longer |
| ProxyRouter.NoneMatch | ssl_proxy.py:414-418 | when no backend of the search order matches, no configured backend does, so the default is used |
| ProxyRouter.Router.TransformPathNonEmpty | ssl_proxy.py:423-429 | the rewritten path is never empty; with strip_prefix it starts with `/`; without it the path is kept (an empty path becomes `/`) |
| ProxyRouter.Router.TransformPathStrips | ssl_proxy.py:423-429 | with strip_prefix the path is what follows the prefix, with a `/` added in front when missing |
| ProxyRouter.Router.TransformPathShort | ssl_proxy.py:423-429 | a path shorter than the prefix becomes `/` |
| HttpMessage.SplitHeadBody | ssl_proxy.py:439-442 | the head and body are split at the first blank line (`\r\n\r\n`); without one, everything is head |
| HttpMessage.ParseHeaderLines | ssl_proxy.py:449-453 | the loop builds exactly the header dict of `HeadersOf`: lines with a `:` give lower-cased, stripped key to stripped value |
| HttpMessage.ParseRequest | ssl_proxy.py:436-457 | the parsing method returns the request described by `ParseRequestSpec` |
| HttpMessage.HeadersOfDistinct | ssl_proxy.py:449-453 | the parsed header dict has no duplicate keys |
| HttpMessage.HeadersOfLast | ssl_proxy.py:449-453 | a repeated header keeps the value of its last line |
| HttpMessage.HeadersOfAbsent | ssl_proxy.py:449-453 | a key named by no line is absent from the parsed headers |
| HttpMessage.PathDefault | ssl_proxy.py:444-447 | a request line without a space gets path `/` and that word as method |
| HttpMessage.RequestRoundTrip | ssl_proxy.py:436-475 | parsing a built request gives back its method, path, body and headers (keys lower-cased) |
| HttpMessage.ResponseRoundTrip | ssl_proxy.py:460-467 | a built response parses back to its status line, body and headers, Content-Length added when the body is non-empty |
| HttpMessage.ContentLengthSet | ssl_proxy.py:460-467 | for a non-empty body `build_response` sets Content-Length to the decimal length of the body |
| Ntlm.ChallengeMessageAsWritten | ssl_proxy.py:328-341 | the challenge message exists exactly when the UTF-16 target name fits the 16-bit length field |
| Ntlm.ChallengeLayoutAsWritten | ssl_proxy.py:328-341 | as written: signature, type 2, both length fields, offset 56, flags 0xe2898235, the 8 challenge bytes at 24, and the target starting at byte 40 |
| Ntlm.CreateChallengeAsWritten | ssl_proxy.py:328-341 | the challenge text exists exactly when the as-written message does, and decodes back to that message |
| Ntlm.SentChallengeMisplaced | ssl_proxy.py:328-341 | a client decoding the challenge the proxy sends and following its TargetName field does not read the configured domain |
| Ntlm.ChallengeTargetMisplaced | ssl_proxy.py:330-339 | reading the target name as the header describes does not give the NTLM domain back (for short domains it reads empty) |
| Ntlm.ChallengeMessage | ssl_proxy.py:328-341 | corrected message: defined exactly when the target name fits |
| Ntlm.ChallengeLayout | ssl_proxy.py:328-341 | corrected layout: the target sits at offset 56, reading the TargetName field gives the domain back, and the base64 header decodes to the message |
| Ntlm.NegotiateNotUser | ssl_proxy.py:353-356 | a type-1 (negotiate) message yields no user |
| Ntlm.AuthenticateHeader | ssl_proxy.py:360-363 | the type-3 header carries the domain and user lengths and offsets where `verify_ntlm` reads them |
| Ntlm.ReadAuthenticateMessage | ssl_proxy.py:358-374 | the domain and user read back from a type-3 message are the ones it carries, with `CN=<user>` as DN |
| Ntlm.AuthenticateYieldsUser | ssl_proxy.py:343-377 | an `NTLM <base64 type-3>` header verifies to that user and domain |
| ProxyAuth.CertUser | ssl_proxy.py:296-326 | the certificate gives a smartcard user exactly when its CN is non-empty, with the configured default domain |
| ProxyAuth.AuthManager.CreateSession | ssl_proxy.py:379-383 | the session id maps to the user with its creation time; nothing else changes |
| ProxyAuth.AuthManager.GetSession | ssl_proxy.py:385-392 | the result is `SessionLookup` of the table at `now`: a session younger than the timeout is returned and kept; any other id is forgotten and nothing is returned |
| ProxyAuth.LookupWindow | ssl_proxy.py:385-392 | a session is found exactly before created + timeout; found now, it is found at every earlier time since creation; not found now, it is never found later; once dropped, it is never found |
| ProxyAuth.CreatedFound | ssl_proxy.py:379-392 | a session just created is found with its user until it is `timeout` old |
| ProxyAuth.AuthenticateGuards | ssl_proxy.py:512-567 | no route gives 404 "No route"; a route without auth_required forwards anonymously; a forwarded request on an auth_required route always has a user |
| ProxyAuth.CertificateFirst | ssl_proxy.py:524-528 | a certificate with a CN wins over cookies and Authorization |
| ProxyAuth.NtlmDisabled | ssl_proxy.py:530-567 | without a certificate and with NTLM disabled the reply is 401 "Auth required"; with NTLM enabled that reply never occurs |
| ProxyAuth.SessionBeforeNtlm | ssl_proxy.py:532-539 | a live `proxy_session` cookie is used before any NTLM header |
| ProxyAuth.NtlmOutcomes | ssl_proxy.py:539-561 | no `NTLM ` header gives a bare `WWW-Authenticate: NTLM` 401; a verified one forwards its user; an unverified one gives a 401 carrying the as-written challenge `Ntlm.CreateChallengeAsWritten`, and no response at all when that challenge cannot be packed |
| ProxyAuth.NtlmAuthenticates | ssl_proxy.py:530-545 | a type-3 message with no cookie session forwards the ntlm user |
| ProxyAuth.CookieSidFinds | ssl_proxy.py:533-536 | the session id is the stripped text after `=` in the first cookie part that names `proxy_session=` |
| ProxyAuth.FirstSessionPartAfter | ssl_proxy.py:534-537 | cookie parts before the first one naming `proxy_session=` do not matter |
| ProxyForward.Assign | ssl_proxy.py:591 | one dict assignment: the key now maps to the value, every other key is unchanged |
| ProxyForward.InjectIdentity | ssl_proxy.py:590-601 | host is set to `host:port`; with a user, the configured CN, auth-method and (when non-empty) DN headers and the two X-Forwarded headers are set; other keys keep their value |
| ProxyForward.DropHopHeaders | ssl_proxy.py:607-609 | keep-alive, upgrade, proxy-authorization and authorization are removed and nothing else |
| ProxyForward.ChooseConnection | ssl_proxy.py:612-622 | non-WebSocket requests get `connection: close`; WebSocket ones get the client's upgrade and connection headers and its websocket key and version when present |
| ProxyForward.RewriteHeadersAsWritten | ssl_proxy.py:589-622 | the backend headers are, key by key, the `Forwarded` function of the client headers |
| ProxyForward.ForwardedHopHeaders | ssl_proxy.py:590-622 | hop headers never reach the backend except upgrade on WebSocket; connection is `close` or the client's; host is the backend unless a configured identity header is named `host` |
| ProxyForward.ForwardedIdentity | ssl_proxy.py:594-598 | with a user, the configured CN and auth-method headers carry the user's values |
| ProxyForward.ForwardedUntouched | ssl_proxy.py:589-622 | any other header is forwarded with the client's value |
| ProxyForward.SpoofedIdentityForwarded | ssl_proxy.py:590-598 | as written: a client-sent `x-client-cert-cn` is forwarded unchanged beside the injected `X-Client-Cert-CN`, and without a user it is forwarded on its own |
| ProxyForward.WithoutIdentityProps | ssl_proxy.py:590-597 | removing identity headers drops exactly the keys equal to a configured identity name ignoring case |
| ProxyForward.RewriteHeaders | ssl_proxy.py:589-622 | corrected rewrite: the backend headers are the `Forwarded` function of the client headers with client identity headers removed |
| ProxyForward.IdentityNotSpoofable | ssl_proxy.py:590-597 | after the corrected rewrite, every header spelled like the CN header carries the authenticated CN or is absent |
| Deps.NormalizeIdentityShape | deps.py:27-62 | the normalised identity has no `@`, no surrounding whitespace and no doubled space; empty input gives empty output |
| Deps.DropParenSuffixMatches | deps.py:46-49 | a trailing `(...)` group is cut at the first `(` that opens a group running to the final `)` |
| Deps.NormalizeDomainUser | deps.py:27-62 | `DOMAIN\user` normalises to `user` |
| Deps.NormalizeEmail | deps.py:27-62 | `user@host` normalises to `user` |
| Deps.NormalizeRemark | deps.py:27-62 | `DOMAIN\user (remark)` normalises to `user` |
| Deps.NormalizeRemarkExample | deps.py:31 | `U\Rajesh Mudiganti (affiliate)` gives `Rajesh Mudiganti` |
| Deps.NormalizeDomainExample | deps.py:32 | `DOMAIN\jsmith` gives `jsmith` |
| Deps.NormalizeEmailExample | deps.py:33 | `jsmith@acme.com` gives `jsmith` |
| Deps.HeaderValue | deps.py:73-78 | a header lookup succeeds exactly when some header matches the name ignoring case, and gives the first such value |
| Deps.FirstPresent | deps.py:73-78 | the `or` chain gives the first non-empty header value in order, or nothing when all are missing or empty |
| Deps.DisplayNameShape | deps.py:93 | dots and underscores become spaces and each word starts upper-case |
| Deps.IdentityHeaderSome | deps.py:73-81 | an identity exists exactly when one of X-Auth-User, X-Client-Cert-CN, X-Forwarded-User, X-Remote-User is non-empty |
| Deps.RuntimeUserProps | deps.py:68-118 | the runtime user has the normalised name as username and token name, X-Auth-Method or `proxy` as method, and a role only from a DB row found by name |
| Deps.FindDbUserOrder | deps.py:101-107 | the normalised name is looked up first; the raw name is used only when it differs and the first lookup failed |
| Deps.HeaderUserProps | deps.py:83-116 | the user built from a header carries its normalised name and the given auth method |
| Deps.VerifyTokenPrecedence | deps.py:124-171 | a proxy identity wins; otherwise an unrevoked admin token (401 if not); otherwise an unrevoked agent token with role agent (403 for another role); otherwise 401 "Authentication required" |
| Deps.AdminGateIff | deps.py:179-199 | admin access is granted exactly to role admin or a trusted proxy method (upgraded to admin); otherwise 403 |
| Deps.ApproverGateIff | deps.py:202-222 | approver access is granted exactly to approver, admin or a trusted proxy method (upgraded to approver); otherwise 403 |
| Deps.HeaderIdentityIsAdmin | deps.py:179-199 | a proxy identity without X-Auth-Method gets method `proxy` and so passes the admin gate as admin |
| Deps.RequireAgent | deps.py:225-248 | a granted agent has role agent and method agent_token |
| Deps.RequireAgentIff | deps.py:225-248 | access is granted exactly for an unrevoked agent-role token from X-Agent-Token or X-Agent-Auth; 403 exactly for an unrevoked token of another role |
| Deps.BearerToken | deps.py:258-261 | after a case-insensitive `Bearer ` prefix the token is the text after the first space |
| Deps.ApproverVerdict | deps.py:262-274 | the verifier's result is accepted exactly for a verified token of the approver or admin role, returning its claims; a verified token of another role is the only 403 |
| Deps.VerifyApproverJwtOutcomes | deps.py:251-278 | a missing header gives 401; a non-Bearer header gives 401; success carries the verifier's claims with role approver or admin; 403 exactly for a verified token of another role |
| Deps.ExpiredTokenAccepted | deps.py:302-309 | as written: an expired, unused token for the right workflow is accepted because the 403 is caught by `except Exception` |
| Deps.CheckExecutionTokenIff | deps.py:288-309 | corrected: a token is accepted exactly when present, known, for this workflow, unused and not expired; every refusal is 403 |
| Deps.ConsumedTokenRefused | deps.py:299-311 | once a token is marked used, the check refuses it with "Token already used" |
| Deps.ExecutionTokens.MarkUsed | deps.py:311-313 | marking succeeds exactly for a known unused token and records the consumer; otherwise nothing changes |
| Deps.ExecutionTokens.RequireUnexpiredToken | deps.py:281-318 | corrected: the same steps with `CheckExecutionToken`, so an expired token is refused with 403 and stays unused |
| Deps.ExecutionTokens.RequireExecutionToken | deps.py:281-318 | as written: succeeds exactly when the caller authenticates and the token passes `CheckExecutionTokenAsWritten`, so an unused, expired token for the workflow is accepted and consumed; then the token row is marked used by the caller; on failure the table is unchanged and the error is the authentication's or the check's |
| MainApp.FirstOuSpec | main.py:68-75 | the first `OU=` component is found exactly when one exists, and no earlier component is one |
| MainApp.ExtractOuSpec | main.py:68-75 | the OU extracted from a DN is the value of its first comma-separated `OU=` part |
| MainApp.ExampleExtract | main.py:68-75 | `CN=Jane Doe,OU=Finance` gives `Finance` |
| MainApp.MappedRolesKnown | main.py:50-65 | every role in the two maps is one the application knows |
| MainApp.DeriveRoleProps | main.py:121-131 | the role comes from the OU map (upper-cased OU) first, then the CN map, then `viewer` |
| MainApp.UnitBeatsName | main.py:121-131 | Jane Doe in OU Finance is a viewer although the CN map says ops |
| MainApp.CertLogin.CertAutoLogin | main.py:79-160 | a live session cookie extends its session and passes through; without a certificate CN nothing changes; otherwise a new session for an active user with that CN (created with the derived role if absent) and a redirect to /dashboard |
| MainApp.MimeTablesAgree | main.py:242-328 | the two content-type tables agree on known suffixes; unknown ones are octet-stream for assets and text/html for the dashboard |
| MainApp.ServeAssetsProps | main.py:242-267 | without login the reply is 401 whatever is on disk; a file is served exactly when logged in and present, with its suffix's type |
| MainApp.ServeDashboardProps | main.py:299-328 | without login the reply is a redirect to /login.html; logged in, a missing file falls back to index.html |
| MainApp.RootAgreesWithDashboard | main.py:221-229 | `/` redirects to login without a session and to the dashboard with one |
| Workflows.WorkflowId | wrk.py:293 | a workflow id is `wf_` followed by 12 hex digits |
| Workflows.WorkflowIdSame | wrk.py:293 | two uuids give the same workflow id exactly when their first 12 hex digits agree, so ids differing there never collide |
| Workflows.ExecuteGuard | wrk.py:481-497 | execution is allowed exactly for an approved workflow with a script and targets; otherwise 400 |
| Workflows.RunsOnce | wrk.py:481-497 | an executed, failed or executing workflow cannot be executed again |
| Workflows.ExecParams | wrk.py:500-501 | non-empty request parameters win over the stored ones, else the stored ones, else none |
| Workflows.ApproveReexecutionIff | wrk.py:697-733 | approval succeeds exactly for a pending request of this workflow when a token is issued; unknown request gives 404 |
| Workflows.BuildEmail | wrk.py:82-150 | the layout carries the details in order with alternating backgrounds; a button exactly when text and url are given; a footer exactly when given |
| Workflows.WorkflowStore.Create | wrk.py:287-390 | the new pending workflow is stored under its id and a `created` audit entry is appended |
| Workflows.WorkflowStore.Approve | wrk.py:392-463 | unknown id 404; non-pending 400; repeat approver 400; otherwise the approval is appended, the status becomes approved when enough levels are reached, and one audit entry is appended |
| Workflows.WorkflowStore.Execute | wrk.py:467-541 | unknown 404; guard failure 400 with no change; otherwise the status becomes executed or failed with the script's outcome, audited |
| Workflows.WorkflowStore.Deny | wrk.py:568-627 | only a pending workflow can be denied; the denier and reason default as in the source; status denied, audited |
| Workflows.WorkflowStore.Delete | wrk.py:545-559 | deletes exactly an existing workflow; otherwise 404; the audit log is kept |
| EmailLayout.BuildRows | wrk.py:111-122 | the rows carry the details in order with alternating backgrounds |
| EmailLayout.NeighboursDiffer | wrk.py:111-122 | neighbouring rows never share a background |
| Reports.ReportService.Register | reports.py:91-101 | the script is stored under its id (name defaulting to the id); other scripts are unchanged |
| Reports.ReportService.Unregister | reports.py:105-109 | removes exactly a registered script; otherwise 404 |
| Reports.ReportService.RunReport | reports.py:117-145 | an unknown script gives 404; otherwise a pending run is recorded and its stream url returned |
| Reports.ReportService.StartRun | reports.py:147-156 | an existing run becomes running |
| Reports.ReportService.FinishRun | reports.py:147-186 | the run records completion with exit code and output, or failure with the agent or error message, and dead subscribers are dropped |
| Reports.ReportService.Cancel | reports.py:313-324 | an unknown run gives 404; a running run becomes cancelled with its completion time; other runs are unchanged |
| Reports.CancelThenFinish | reports.py:313-324 | a cancelled run whose script later finishes ends up completed: cancellation is overwritten |
| Reports.ReportService.Broadcast | reports.py:204-218 | the run's subscribers that failed are dropped and the others kept in order |
| Reports.DropDead | reports.py:204-218 | the two loops keep exactly the subscribers not in the failed set, in order |
| Reports.RemoveFromKeep | reports.py:216-218 | removing failed subscribers one at a time equals filtering by the failed set |
| Reports.ReportService.Connect | reports.py:227-246 | the connection is appended to the run's subscriber list, and the messages it is sent are the run's `Greeting` |
| Reports.ReportService.Disconnect | reports.py:265-266 | the connection is removed from the run's subscriber list |
| Reports.GreetingProps | reports.py:235-246 | at most two messages; the output is sent exactly when the run exists with output, always first and with that output; the completion exactly when the run is completed or failed, always last, with its status and exit code |
| Reports.HistoryProps | reports.py:273-279 | the history is newest first and drawn from the recorded runs; every run left out started no later than every run kept, so the kept runs are the most recent; with a large enough limit it is all of them |
| Reports.HistoryLength | reports.py:273-279 | the history length follows Python's `[:limit]`, including negative limits |
| Mailer.ButtonColor | mailer.py:50-58 | rose exactly for a deny button or a denied title; emerald exactly for an approve button or approved title otherwise; sky otherwise |
| Mailer.BuildEmailHtml | mailer.py:5-150 | the layout keeps the title, colour and message, carries the details with alternating backgrounds, has a button exactly when text and url are given (coloured by `ButtonColor`), and a footer exactly when given |
| Mailer.RequestButtonColor | mailer.py:153-181 | the approval-request button is sky |
| Mailer.ApprovedButtonColor | mailer.py:184-209 | the approved-mail button is emerald |
| Mailer.DeniedButtonColor | mailer.py:212-237 | the denied-mail button is rose |
| Mailer.ExecutedButtonColor | mailer.py:240-278 | the executed-mail button is sky |
| Mailer.RequestorDisplay | mailer.py:164 | the requestor is shown with the e-mail in parentheses when one is given |
| Mailer.ApprovalRequestEmail | mailer.py:153-181 | title, colour, the request details, a dashboard button exactly when a url is given, and the requestor footer |
| Mailer.WorkflowApprovedEmail | mailer.py:184-209 | title, colour, the approval details, the optional button and the fixed footer |
| Mailer.WorkflowDeniedEmail | mailer.py:212-237 | title, colour, the denial details, the optional button and the fixed footer |
| Mailer.WorkflowExecutedEmail | mailer.py:240-278 | title, colour, the execution details with the per-target results, the optional button and the fixed footer |
| Mailer.StatusText | mailer.py:256 | a target's status reads Success exactly for exit code 0 |
| Mailer.StatusColor | mailer.py:255 | a target's status is green exactly for exit code 0 |
| Mailer.BuildResults | mailer.py:252-258 | the loop builds one result line per target in order |
| Mailer.ResultLinesAppend | mailer.py:252-258 | result lines of two target lists concatenate |
| Mailer.CleanShape | mailer.py:301-302 | every cleaned address is non-empty and stripped |
| Mailer.CleanKeeps | mailer.py:301-302 | every address that is not blank survives cleaning, stripped |
| Mailer.CleanIdem | mailer.py:301-302 | cleaning twice is cleaning once |
| Mailer.StripTagsNoTags | mailer.py:321-324 | the tag-stripped text holds no `<...>` tag |
| Mailer.TextFallbackShape | mailer.py:321-324 | the plain-text fallback is trimmed and has no run of whitespace |
| Mailer.PrepareEmail | mailer.py:295-307 | no envelope exactly when no recipient survives cleaning |
| Mailer.PrepareEmailProps | mailer.py:295-330 | the recipients are the cleaned To list then the cleaned Cc list; a Cc header exactly when Cc is non-empty; the text body is the given one or the HTML fallback |
| Mailer.ToHeaderRoundTrip | mailer.py:315 | splitting the To header at `, ` gives back the cleaned recipients when none holds a comma |
| Base64.DecodeEncode | ssl_proxy.py:340-352 | decoding the base64 encoding of any byte string gives it back |
| Utf16.DecodeEncode | ssl_proxy.py:331-368 | decoding the UTF-16-LE encoding of any string gives it back |
| Utf16.EncodeDecode | ssl_proxy.py:367-368 | a byte string that decodes re-encodes to itself |
| Sorting.SortDescCorrect | ssl_proxy.py:406-410 | the descending sort is sorted and a permutation of its input |
| Sorting.SortDescStable | ssl_proxy.py:406-410 | the sort is stable: the elements sharing a key keep their input order, so among equally long prefixes the router tries the first configured backend first |

## Left out

- TLS and X.509:
  - The TLS context and handshake are not modelled, and neither is certificate parsing (`extract_cert_identity`).
  - The client certificate's CN and DN are inputs.
- The socket relay is not modelled: `handle`'s reading, writing and timeouts, `_proxy_ws`, and the 502 for an unreachable backend. The model stops at the request line, path and headers sent to the backend.
- Configuration and process plumbing are not modelled: `load_config` (YAML), `setup_logging`, `start` and `main`. Configuration is a value.
- Bytes and strings:
  - Request and response bytes are modelled as strings of characters.
  - `decode(errors='replace')` of non-UTF-8 input is not modelled.
  - The `except` branch of `parse_request` cannot be reached on a string and is not modelled.
- Header handling:
  - `build_response` updates the caller's dict in place. This is modelled as the returned header list `ResponseHeaders`.
  - Case-insensitive lookups in the FastAPI request headers are modelled as `Deps.HeaderValue` over a list of pairs.
- Sessions:
  - In the authentication ladder, the session lookup is a function parameter. The `AuthManager` class models the session table itself.
  - `handle` never calls `create_session`, so the NTLM ladder never creates a session.
- Values and services supplied as parameters:
  - Random values: `secrets` session ids, the NTLM challenge bytes, uuids, run ids and new user ids.
  - The clock.
  - JWT verification.
  - The file system.
  - The script-running agent.
- Data stores:
  - The database is modelled as maps and sequences owned by the classes.
  - The workflow, audit and token tables are fields.
- Workflows.WorkflowStore.Approve: the database code behind `db.add_approval` is not part of this model. Its `False` result is taken to mean exactly "this approver has already approved this workflow", the meaning wrk.py:407-409 gives it; any other failure of that call is not modelled.
- Workflows.WorkflowStore.Delete: the database code behind `db.delete_workflow` (wrk.py:556) is not part of this model. The contract takes it to remove only the workflow's row and to leave the audit log as it was; whether the database also drops that workflow's approvals or audit rows is not modelled.
- `SessionManager` is not part of this model. The middleware's session refresh is modelled as setting the expiry to now plus the lifetime.
- The execution token's `expires_at` is modelled as an optional integer time. The ISO string parsing is not modelled.
- wrk.py parts not modelled:
  - The e-mail and agent notifications.
  - `create_workflow`'s DB fallbacks.
  - The list, get and audit endpoints.
  - `request_reexecution`: it only records a row.
  - The `executing` status is only transient inside `Execute`.
- reports.py parts not modelled:
  - The ping/pong keep-alive loop and the JSON message contents.
  - `get_report_result`, `list_report_scripts` and `init_sample_reports`.
  - The scheduling of `asyncio.create_task`. Start and finish are separate methods.
- mailer.py parts not modelled:
  - The HTML markup, the CSS and the timestamp. The layout is modelled as a structured value.
  - SMTP, sendmail and the dry-run path.
  - The `send_*` convenience wrappers, which only combine a builder with `send_email`.
- Base64.Decode: non-ASCII input is refused with None instead of raising, as the lenient decoder's callers treat both as failure.
- Python's integers and times are unbounded `int`s.
- DisplayNameShape (`Deps.DisplayNameShape`): `str.title()` is modelled on ASCII letters only; a name with a non-ASCII letter (`müller`) differs, because the model treats that letter as a word break and leaves its case alone.
- DeriveRoleProps (`MainApp.DeriveRoleProps`): the OU key is upper-cased with ASCII `upper()`; Python's Unicode `upper()` differs on non-ASCII letters (`ß` becomes `SS`).
- Text.Lower, Text.Upper and Deps.Title: case mapping is ASCII-only. Non-ASCII letters, and the word breaks `title()` sees around them, are where the model differs from Python. This touches the display name (deps.py:93), the OU key (main.py:123), header-name lower-casing (ssl_proxy.py:453), the `bearer ` prefix test (deps.py:258) and the lowered e-mail title that `Mailer.ButtonColor` searches for "denied" and "approved" (mailer.py:55, 57).
- Deps.ExecutionTokens.RequireExecutionToken: the 403 `Token could not be consumed` answers a concurrent request consuming the token first; the model is sequential, so marking a checked token always succeeds and that answer is not modelled.
- ProxyForward.RewriteHeaders: its contract states the header map's contents, not the order of entries that the dict's insertion order puts on the wire (`ProxyForward.Assign` states that order for one assignment).
- Deps.AdminGate: `require_admin` and `require_approver` write the upgraded role into the request's user dict in place. This is modelled as returning the updated user.
- Deps.RuntimeUser: the field updates of the runtime user dict are modelled as building the final record.

## Findings

| source | as written | input that shows it | evidently intended | confidence | as-written member | corrected member |
|---|---|---|---|---|---|---|
| ssl_proxy.py:453, 590-598 | headers are parsed with lower-cased keys, but the identity headers are injected under their configured mixed-case names, so a client-sent `x-client-cert-cn` is forwarded beside the proxy's `X-Client-Cert-CN` (and alone on routes or requests without a user) | a request carrying `X-Client-Cert-CN: admin` to a backend that reads headers case-insensitively | client copies of the configured identity headers are removed before the proxy sets them; `X-Auth-User`, which deps.py:74 reads first, still passes through unless it is one of the configured headers | not executed | ProxyForward.SpoofedIdentityForwarded | ProxyForward.IdentityNotSpoofable |
| deps.py:302-309 | the 403 for an expired token is raised inside a `try` whose `except Exception` only logs, so it is swallowed and the expired token is accepted and consumed (`Deps.ExecutionTokens.RequireExecutionToken`; corrected in `RequireUnexpiredToken`) | an unused token for the right workflow whose `expires_at` is in the past | an expired token is refused with 403 | not executed | Deps.ExpiredTokenAccepted | Deps.CheckExecutionTokenIff |
| ssl_proxy.py:330-339 | the challenge announces the TargetName at offset 56 but the header written is only 40 bytes long, so the target starts at byte 40 | NTLM domain `CORP`: its 8-byte target ends at byte 48, so the field read at offset 56 is empty | the TargetInfo and Version fields fill the header to 56 bytes so the target sits where its offset says; the authentication ladder sends the as-written challenge (`Ntlm.CreateChallengeAsWritten`) | not executed | Ntlm.ChallengeTargetMisplaced | Ntlm.ChallengeLayout |
