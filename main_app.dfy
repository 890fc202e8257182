/** The web application's certificate login and static file rules: the
    organisational unit taken from a certificate subject, the role a new
    certificate user receives, the auto-login middleware over the user and
    session tables, and the content types of served files. */
module MainApp {
  import opened Base
  import opened Text

  // ---------------------------------------------------------------------
  // Organisational unit and role
  // ---------------------------------------------------------------------

  /** A part of the subject that names the unit: after trimming, it begins
      with the case-sensitive `OU=`. */
  predicate OuPart(part: string)
  {
    StartsWith(Strip(part), "OU=")
  }

  /** The unit a part names. */
  function OuValue(part: string): string
    requires OuPart(part)
  {
    Strip(part)[3..]
  }

  /** The position of the first element satisfying `p`, or `|s|` when
      none does. */
  function FirstWhere(s: seq<string>, p: string -> bool): (r: nat)
    ensures r <= |s|
    ensures r < |s| ==> p(s[r])
    ensures forall j :: 0 <= j < r ==> !p(s[j])
  {
    if s == [] || p(s[0]) then 0 else 1 + FirstWhere(s[1..], p)
  }

  /** The unit named by the first part that names one. */
  function FirstOu(parts: seq<string>): Option<string>
  {
    var i := FirstWhere(parts, OuPart);
    if i < |parts| then Some(OuValue(parts[i])) else None
  }

  /** `extract_ou_from_dn(dn)` */
  function ExtractOu(dn: Option<string>): (r: Option<string>)
    ensures !Truthy(dn) ==> r == None
  {
    if !Truthy(dn) then None else FirstOu(Split(dn.value, ","))
  }

  /** The first part that names a unit gives the unit; no such part gives
      `None`. */
  lemma FirstOuSpec(parts: seq<string>)
    ensures FirstOu(parts).Some? <==> exists i :: 0 <= i < |parts| && OuPart(parts[i])
    ensures FirstOu(parts).Some? ==>
      exists i :: 0 <= i < |parts| && OuPart(parts[i]) && FirstOu(parts).value == OuValue(parts[i]) &&
                  (forall j :: 0 <= j < i ==> !OuPart(parts[j]))
  {
    var i := FirstWhere(parts, OuPart);
    if i < |parts| {
      assert OuPart(parts[i]) && FirstOu(parts).value == OuValue(parts[i]);
    }
  }

  /** `extract_ou_from_dn` over the comma-separated parts of a non-empty
      subject. */
  lemma ExtractOuSpec(dn: string, parts: seq<string>)
    requires dn != "" && parts == Split(dn, ",")
    ensures ExtractOu(Some(dn)).Some? <==> exists i :: 0 <= i < |parts| && OuPart(parts[i])
    ensures ExtractOu(Some(dn)).Some? ==>
      exists i :: 0 <= i < |parts| && OuPart(parts[i]) && ExtractOu(Some(dn)).value == OuValue(parts[i]) &&
                  (forall j :: 0 <= j < i ==> !OuPart(parts[j]))
  {
    assert ExtractOu(Some(dn)) == FirstOu(parts);
    FirstOuSpec(parts);
  }

  /** `OU_ROLE_MAP`, keyed by the upper-cased unit. */
  const OuRoleMap: map<string, string> :=
    map["IT SECURITY" := "admin", "DEVOPS" := "ops", "OPERATIONS" := "ops",
        "FINANCE" := "viewer", "HR" := "viewer", "DBA" := "admin"]

  /** `ROLE_MAP`, keyed by the certificate common name. */
  const RoleMap: map<string, string> := map["John Smith" := "admin", "Jane Doe" := "ops", "AutomationBot" := "system"]

  const DefaultRole: string := "viewer"

  predicate KnownRole(r: string)
  {
    r == "admin" || r == "ops" || r == "viewer" || r == "system"
  }

  /** The role given to a certificate user seen for the first time. */
  function DeriveRole(cn: string, dn: Option<string>): string
  {
    var ou := ExtractOu(dn);
    if Truthy(ou) && Upper(ou.value) in OuRoleMap then OuRoleMap[Upper(ou.value)]
    else if cn in RoleMap then RoleMap[cn]
    else DefaultRole
  }

  /** Both tables map only to known roles. */
  lemma MappedRolesKnown(k: string)
    ensures k in OuRoleMap ==> KnownRole(OuRoleMap[k])
    ensures k in RoleMap ==> KnownRole(RoleMap[k])
  {
    if k in OuRoleMap {
      assert k == "IT SECURITY" || k == "DEVOPS" || k == "OPERATIONS" || k == "FINANCE" || k == "HR" || k == "DBA";
    }
    if k in RoleMap {
      assert k == "John Smith" || k == "Jane Doe" || k == "AutomationBot";
    }
  }

  /** The unit decides when it is mapped, the common name only when it is
      not, the default otherwise; the role is always one of the four. */
  lemma DeriveRoleProps(cn: string, dn: Option<string>)
    ensures KnownRole(DeriveRole(cn, dn))
    ensures var ou := ExtractOu(dn);
      (Truthy(ou) && Upper(ou.value) in OuRoleMap ==> DeriveRole(cn, dn) == OuRoleMap[Upper(ou.value)]) &&
      (!(Truthy(ou) && Upper(ou.value) in OuRoleMap) && cn in RoleMap ==> DeriveRole(cn, dn) == RoleMap[cn]) &&
      (!(Truthy(ou) && Upper(ou.value) in OuRoleMap) && cn !in RoleMap ==> DeriveRole(cn, dn) == "viewer")
  {
    var ou := ExtractOu(dn);
    if Truthy(ou) {
      MappedRolesKnown(Upper(ou.value));
    }
    MappedRolesKnown(cn);
  }

  lemma ExampleParts()
    ensures Split("CN=Jane Doe,OU=Finance", ",") == ["CN=Jane Doe", "OU=Finance"]
  {
    var parts := ["CN=Jane Doe", "OU=Finance"];
    assert Join(parts, ",") == "CN=Jane Doe,OU=Finance";
    SplitJoin(parts, ",");
  }

  lemma ExampleNameNotUnit()
    ensures !OuPart("CN=Jane Doe")
  {
    var a := "CN=Jane Doe";
    assert a[..3] == "CN=";
    StripNoop(a);
  }

  lemma ExampleUnitPart()
    ensures OuPart("OU=Finance") && OuValue("OU=Finance") == "Finance"
  {
    var b := "OU=Finance";
    assert b[..3] == "OU=" && b[3..] == "Finance";
    StripNoop(b);
  }

  lemma ExampleUnit()
    ensures FirstOu(["CN=Jane Doe", "OU=Finance"]) == Some("Finance")
  {
    assert ["CN=Jane Doe", "OU=Finance"][1..] == ["OU=Finance"];
    ExampleNameNotUnit();
    ExampleUnitPart();
  }

  lemma ExampleExtract(dn: string)
    requires dn == "CN=Jane Doe,OU=Finance"
    ensures ExtractOu(Some(dn)) == Some("Finance")
  {
    ExampleParts();
    ExampleUnit();
  }

  /** A certificate for `Jane Doe` (mapped to `ops` by name) issued in the
      `Finance` unit (mapped to `viewer`) gets `viewer`: the unit wins. */
  lemma UnitBeatsName(cn: string, dn: string)
    requires cn == "Jane Doe" && dn == "CN=Jane Doe,OU=Finance"
    ensures RoleMap[cn] == "ops"
    ensures ExtractOu(Some(dn)) == Some("Finance")
    ensures DeriveRole(cn, Some(dn)) == "viewer"
  {
    ExampleExtract(dn);
    FinanceIsViewer("Finance");
  }

  lemma FinanceIsViewer(unit: string)
    requires unit == "Finance"
    ensures Upper(unit) in OuRoleMap && OuRoleMap[Upper(unit)] == "viewer"
  {
    assert Upper(unit) == "FINANCE";
  }

  // ---------------------------------------------------------------------
  // Certificate auto-login middleware
  // ---------------------------------------------------------------------

  /** A row of the users table. */
  datatype Account = Account(username: string, role: string, fullName: string, active: bool, authMethod: string)

  /** A row of the sessions table. */
  datatype DbSession = DbSession(userId: int, expires: int)

  /** What the middleware does with a request: hand it on to the
      application, or answer with a redirect carrying a new session. */
  datatype MiddlewareResult = PassThrough | RedirectTo(location: string, sessionId: string)

  /** The users and sessions tables the middleware reads and writes. */
  class CertLogin {
    var accounts: map<int, Account>
    var sessions: map<string, DbSession>
    const lifetime: int

    /** Every session belongs to a stored user, and sessions last a while. */
    ghost predicate Valid()
      reads this
    {
      lifetime > 0 &&
      forall sid :: sid in sessions ==> sessions[sid].userId in accounts
    }

    constructor(lifetime: int)
      requires lifetime > 0
      ensures accounts == map[] && sessions == map[] && this.lifetime == lifetime
      ensures Valid()
    {
      accounts := map[];
      sessions := map[];
      this.lifetime := lifetime;
    }

    /** A session cookie naming an unexpired session. */
    predicate ActiveSession(cookie: Option<string>, now: int)
      reads this
    {
      Truthy(cookie) && cookie.value in sessions && now < sessions[cookie.value].expires
    }

    /** An active user stored under the name `cn`. */
    predicate ActiveUser(id: int, cn: string)
      reads this
    {
      id in accounts && accounts[id].username == cn && accounts[id].active
    }

    /** The users table holds an active user named `cn`. */
    predicate HasActiveUser(cn: string)
      reads this
    {
      exists id :: id in accounts && ActiveUser(id, cn)
    }

    /** `cert_auto_login`: a live session is refreshed after the request
        is handled; without a certificate name the request passes through;
        otherwise the certificate's user (found or created with a derived
        role) gets a new session and a redirect to `/dashboard`.
        `newUserId` and `newSid` are the ids the database and the session
        manager would hand out. */
    method CertAutoLogin(cookie: Option<string>, certCn: Option<string>, certDn: Option<string>,
                         newUserId: int, newSid: string, now: int) returns (r: MiddlewareResult)
      requires Valid()
      requires newUserId !in accounts
      modifies this
      ensures Valid()
      ensures old(ActiveSession(cookie, now)) ==>
        r == PassThrough && accounts == old(accounts) &&
        sessions == old(sessions)[cookie.value := DbSession(old(sessions)[cookie.value].userId, now + lifetime)]
      ensures !old(ActiveSession(cookie, now)) && !Truthy(certCn) ==>
        r == PassThrough && accounts == old(accounts) && sessions == old(sessions)
      ensures !old(ActiveSession(cookie, now)) && Truthy(certCn) ==>
        r == RedirectTo("/dashboard", newSid) && newSid in sessions && now < sessions[newSid].expires &&
        ActiveUser(sessions[newSid].userId, certCn.value) &&
        sessions == old(sessions)[newSid := DbSession(sessions[newSid].userId, now + lifetime)]
      ensures !old(ActiveSession(cookie, now)) && Truthy(certCn) && old(HasActiveUser(certCn.value)) ==>
        accounts == old(accounts)
      ensures !old(ActiveSession(cookie, now)) && Truthy(certCn) && !old(HasActiveUser(certCn.value)) ==>
        accounts == old(accounts)[newUserId := Account(certCn.value, DeriveRole(certCn.value, certDn), certCn.value, true, "cert")] &&
        sessions[newSid].userId == newUserId
    {
      if ActiveSession(cookie, now) {
        var c := cookie.value;
        sessions := sessions[c := DbSession(sessions[c].userId, now + lifetime)];
        return PassThrough;
      }
      if !Truthy(certCn) {
        return PassThrough;
      }
      var cn := certCn.value;
      var userId: int;
      if HasActiveUser(cn) {
        userId :| userId in accounts && ActiveUser(userId, cn);
      } else {
        accounts := accounts[newUserId := Account(cn, DeriveRole(cn, certDn), cn, true, "cert")];
        userId := newUserId;
      }
      sessions := sessions[newSid := DbSession(userId, now + lifetime)];
      r := RedirectTo("/dashboard", newSid);
    }
  }

  // ---------------------------------------------------------------------
  // Static files
  // ---------------------------------------------------------------------

  /** The content type `serve_assets` picks by suffix. */
  function AssetMime(path: string): string
  {
    if EndsWith(path, ".js") then "application/javascript"
    else if EndsWith(path, ".css") then "text/css"
    else if EndsWith(path, ".png") then "image/png"
    else if EndsWith(path, ".jpg") || EndsWith(path, ".jpeg") then "image/jpeg"
    else if EndsWith(path, ".svg") then "image/svg+xml"
    else if EndsWith(path, ".woff") || EndsWith(path, ".woff2") then "font/woff2"
    else if EndsWith(path, ".json") then "application/json"
    else "application/octet-stream"
  }

  /** The content type `serve_dashboard` picks by suffix. */
  function DashboardMime(path: string): string
  {
    if EndsWith(path, ".js") then "application/javascript"
    else if EndsWith(path, ".css") then "text/css"
    else if EndsWith(path, ".json") then "application/json"
    else if EndsWith(path, ".png") then "image/png"
    else if EndsWith(path, ".jpg") || EndsWith(path, ".jpeg") then "image/jpeg"
    else if EndsWith(path, ".svg") then "image/svg+xml"
    else if EndsWith(path, ".woff") || EndsWith(path, ".woff2") then "font/woff2"
    else "text/html"
  }

  /** The suffixes both tables know. */
  predicate KnownSuffix(path: string)
  {
    EndsWith(path, ".js") || EndsWith(path, ".css") || EndsWith(path, ".png") || EndsWith(path, ".jpg") ||
    EndsWith(path, ".jpeg") || EndsWith(path, ".svg") || EndsWith(path, ".woff") || EndsWith(path, ".woff2") ||
    EndsWith(path, ".json")
  }

  lemma EndsWithLast(path: string, suffix: string)
    requires suffix != [] && EndsWith(path, suffix)
    ensures path != [] && path[|path| - 1] == suffix[|suffix| - 1]
  {
    assert path[|path| - |suffix|..][|suffix| - 1] == path[|path| - 1];
  }

  /** The two tables, though checked in different orders, give every known
      suffix the same type; they differ only in their defaults. Both give
      `.woff` and `.woff2` the type `font/woff2`. */
  lemma MimeTablesAgree(path: string)
    ensures KnownSuffix(path) ==> AssetMime(path) == DashboardMime(path)
    ensures !KnownSuffix(path) ==> AssetMime(path) == "application/octet-stream" && DashboardMime(path) == "text/html"
    ensures EndsWith(path, ".woff") || EndsWith(path, ".woff2") ==> AssetMime(path) == "font/woff2"
  {
    if EndsWith(path, ".json") {
      EndsWithLast(path, ".json");
      assert !EndsWith(path, ".png") && !EndsWith(path, ".jpg") && !EndsWith(path, ".jpeg") && !EndsWith(path, ".svg") &&
             !EndsWith(path, ".woff") && !EndsWith(path, ".woff2") && !EndsWith(path, ".js") && !EndsWith(path, ".css") by {
        if EndsWith(path, ".png") { EndsWithLast(path, ".png"); }
        if EndsWith(path, ".jpg") { EndsWithLast(path, ".jpg"); }
        if EndsWith(path, ".jpeg") { EndsWithLast(path, ".jpeg"); }
        if EndsWith(path, ".svg") { EndsWithLast(path, ".svg"); }
        if EndsWith(path, ".woff") { EndsWithLast(path, ".woff"); }
        if EndsWith(path, ".woff2") { EndsWithLast(path, ".woff2"); }
        if EndsWith(path, ".js") { EndsWithLast(path, ".js"); }
        if EndsWith(path, ".css") { EndsWithLast(path, ".css"); }
      }
    }
    if EndsWith(path, ".woff") {
      EndsWithLast(path, ".woff");
      assert !EndsWith(path, ".js") && !EndsWith(path, ".css") && !EndsWith(path, ".png") && !EndsWith(path, ".jpg") &&
             !EndsWith(path, ".jpeg") && !EndsWith(path, ".svg") by {
        if EndsWith(path, ".js") { EndsWithLast(path, ".js"); }
        if EndsWith(path, ".css") { EndsWithLast(path, ".css"); }
        if EndsWith(path, ".png") { EndsWithLast(path, ".png"); }
        if EndsWith(path, ".jpg") { EndsWithLast(path, ".jpg"); }
        if EndsWith(path, ".jpeg") { EndsWithLast(path, ".jpeg"); }
        if EndsWith(path, ".svg") { EndsWithLast(path, ".svg"); }
      }
    }
    if EndsWith(path, ".woff2") {
      EndsWithLast(path, ".woff2");
      assert !EndsWith(path, ".js") && !EndsWith(path, ".css") && !EndsWith(path, ".png") && !EndsWith(path, ".jpg") &&
             !EndsWith(path, ".jpeg") && !EndsWith(path, ".svg") by {
        if EndsWith(path, ".js") { EndsWithLast(path, ".js"); }
        if EndsWith(path, ".css") { EndsWithLast(path, ".css"); }
        if EndsWith(path, ".png") { EndsWithLast(path, ".png"); }
        if EndsWith(path, ".jpg") { EndsWithLast(path, ".jpg"); }
        if EndsWith(path, ".jpeg") { EndsWithLast(path, ".jpeg"); }
        if EndsWith(path, ".svg") { EndsWithLast(path, ".svg"); }
      }
    }
  }

  /** An answer of the web application. */
  datatype Reply = File(path: string, mime: string) | Error(status: int, detail: string) | Redirect(location: string)

  /** `serve_assets(path)`: `loggedIn` is whether the session cookie names
      a user, `onDisk` the file system. */
  function ServeAssets(loggedIn: bool, path: string, onDisk: string -> bool): Reply
  {
    if !loggedIn then Error(401, "Authentication required")
    else if !onDisk("dashboard/dist/assets/" + path) then Error(404, "Asset not found")
    else File("dashboard/dist/assets/" + path, AssetMime(path))
  }

  /** An asset is refused with 401 before the file system is consulted; a
      served asset exists and has its suffix's type. */
  lemma ServeAssetsProps(loggedIn: bool, path: string, onDisk: string -> bool, other: string -> bool)
    ensures !loggedIn ==> ServeAssets(loggedIn, path, onDisk) == ServeAssets(loggedIn, path, other) == Error(401, "Authentication required")
    ensures ServeAssets(loggedIn, path, onDisk).File? <==> loggedIn && onDisk("dashboard/dist/assets/" + path)
    ensures ServeAssets(loggedIn, path, onDisk).File? ==> ServeAssets(loggedIn, path, onDisk).mime == AssetMime(path)
  {
  }

  /** The file `serve_dashboard` looks for under `dashboard/dist/`. */
  function DashboardFile(path: string): string
  {
    if path == "" || path == "/" then "index.html" else path
  }

  /** `serve_dashboard(path)` */
  function ServeDashboard(loggedIn: bool, path: string, onDisk: string -> bool): Reply
  {
    if !loggedIn then Redirect("/login.html")
    else
      var p := DashboardFile(path);
      if onDisk("dashboard/dist/" + p) then File("dashboard/dist/" + p, DashboardMime(p))
      else File("dashboard/dist/index.html", "text/html")
  }

  /** A signed-in user always receives a file: the one asked for (the
      index for `""` and `/`) when it exists, else the index page. */
  lemma ServeDashboardProps(loggedIn: bool, path: string, onDisk: string -> bool)
    ensures !loggedIn ==> ServeDashboard(loggedIn, path, onDisk) == Redirect("/login.html")
    ensures loggedIn ==> ServeDashboard(loggedIn, path, onDisk).File?
    ensures loggedIn && (path == "" || path == "/") && onDisk("dashboard/dist/index.html") ==>
      ServeDashboard(loggedIn, path, onDisk) == File("dashboard/dist/index.html", "text/html")
    ensures loggedIn && !onDisk("dashboard/dist/" + DashboardFile(path)) ==>
      ServeDashboard(loggedIn, path, onDisk) == File("dashboard/dist/index.html", "text/html")
    ensures loggedIn && onDisk("dashboard/dist/" + DashboardFile(path)) ==>
      ServeDashboard(loggedIn, path, onDisk) == File("dashboard/dist/" + DashboardFile(path), DashboardMime(DashboardFile(path)))
  {
    assert "dashboard/dist/" + "index.html" == "dashboard/dist/index.html";
    IndexIsHtml();
  }

  /** The index page is served as HTML. */
  lemma IndexIsHtml()
    ensures DashboardMime("index.html") == "text/html"
  {
    var p := "index.html";
    if EndsWith(p, ".js") { EndsWithLast(p, ".js"); }
    if EndsWith(p, ".css") { EndsWithLast(p, ".css"); }
    if EndsWith(p, ".json") { EndsWithLast(p, ".json"); }
    if EndsWith(p, ".png") { EndsWithLast(p, ".png"); }
    if EndsWith(p, ".jpg") { EndsWithLast(p, ".jpg"); }
    if EndsWith(p, ".jpeg") { EndsWithLast(p, ".jpeg"); }
    if EndsWith(p, ".svg") { EndsWithLast(p, ".svg"); }
    if EndsWith(p, ".woff") { EndsWithLast(p, ".woff"); }
    if EndsWith(p, ".woff2") { EndsWithLast(p, ".woff2"); }
  }

  /** `root`: to the dashboard with a session user, else to the login page. */
  function Root(loggedIn: bool): Reply
  {
    Redirect(if loggedIn then "/dashboard" else "/login.html")
  }

  /** The root page and the dashboard send a visitor without a session to
      the same login page; a signed-in user is sent on to the dashboard. */
  lemma RootAgreesWithDashboard(loggedIn: bool, path: string, onDisk: string -> bool)
    ensures !loggedIn ==> Root(loggedIn) == ServeDashboard(loggedIn, path, onDisk)
    ensures loggedIn ==> Root(loggedIn) == Redirect("/dashboard") && ServeDashboard(loggedIn, path, onDisk).File?
  {
  }
}
