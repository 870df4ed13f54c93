/** The audit interceptor (audit.interceptor.ts): below the guards, around
    the handler; it writes one audit record per handled request, allowed
    when the handler succeeds or fails with a status below 400, and hands
    the handler's outcome on unchanged. */
module AuditInterceptor {
  import opened Common
  import opened JsText
  import opened Audit

  // ---------------------------------------------------------------------
  // extractResource

  /** The resource named by a list of non-empty path segments: the first
      one, or the second after a leading `api`; "unknown" when that is
      missing. */
  function ResourceOf(segments: seq<string>): (resource: string)
    ensures segments == [] || segments == ["api"] ==> resource == "unknown"
    ensures |segments| >= 1 && segments[0] != "api" && segments[0] != [] ==> resource == segments[0]
    ensures |segments| >= 2 && segments[0] == "api" && segments[1] != [] ==> resource == segments[1]
  {
    var index := if |segments| > 0 && segments[0] == "api" then 1 else 0;
    if index < |segments| && segments[index] != [] then segments[index] else "unknown"
  }

  /** extractResource. */
  function ExtractResource(path: string): (resource: string)
    ensures resource != [] && '/' !in resource
  {
    var segments := NonEmpty(Split(path, '/'));
    var r := ResourceOf(segments);
    assert r == "unknown" || r in Split(path, '/');
    r
  }

  /** For a path made of pieces without `/`, the resource is read off its
      non-empty pieces. */
  lemma ExtractResourceOfJoin(parts: seq<string>)
    requires |parts| >= 1
    requires forall i :: 0 <= i < |parts| ==> '/' !in parts[i]
    ensures ExtractResource(Join(parts, '/')) == ResourceOf(NonEmpty(parts))
  {
    SplitJoin(parts, '/');
  }

  /** The same for a path already known to be that join. */
  lemma ExtractResourceOfPieces(path: string, parts: seq<string>, resource: string)
    requires |parts| >= 1 && Slashless(parts)
    requires Join(parts, '/') == path && ResourceOf(NonEmpty(parts)) == resource
    ensures ExtractResource(path) == resource
  {
    ExtractResourceOfJoin(parts);
  }

  predicate Slashless(parts: seq<string>) {
    forall i :: 0 <= i < |parts| ==> '/' !in parts[i]
  }

  /** A route path under the global `api` prefix names its first segment
      after the prefix: `/api/tasks/:id` gives "tasks". */
  lemma ExtractResourceApiPath()
    ensures ExtractResource("/api/tasks/:id") == "tasks"
  {
    ApiPathSlashless();
    ApiPathJoin();
    ApiPathResource();
    ExtractResourceOfPieces("/api/tasks/:id", ["", "api", "tasks", ":id"], "tasks");
  }

  lemma ApiPathSlashless()
    ensures Slashless(["", "api", "tasks", ":id"])
  {
  }

  /** `/api/tasks/:id` as its pieces around `/`. */
  lemma ApiPathJoin()
    ensures Join(["", "api", "tasks", ":id"], '/') == "/api/tasks/:id"
  {
    var parts := ["", "api", "tasks", ":id"];
    assert parts[1..][1..][1..] == [":id"];
    assert Join(parts[1..][1..], '/') == "tasks/:id";
    assert Join(parts[1..], '/') == "api/tasks/:id";
  }

  /** Those pieces without the empty one name "tasks". */
  lemma ApiPathResource()
    ensures ResourceOf(NonEmpty(["", "api", "tasks", ":id"])) == "tasks"
  {
    var parts := ["", "api", "tasks", ":id"];
    var rest := ["api", "tasks", ":id"];
    assert parts[1..] == rest;
    assert NonEmpty(parts) == NonEmpty(rest);
    assert forall i :: 0 <= i < |rest| ==> rest[i] != [];
    assert NonEmpty(rest) == rest;
  }

  /** Without the prefix the first segment is the resource: `/audit-log`
      gives "audit-log". */
  lemma ExtractResourcePlainPath()
    ensures ExtractResource("/audit-log") == "audit-log"
  {
    var parts := ["", "audit-log"];
    assert "/audit-log" == Join(parts, '/');
    assert NonEmpty(parts) == ["audit-log"] by {
      assert parts[1..] == ["audit-log"];
    }
    ExtractResourceOfJoin(parts);
  }

  /** `/` and a bare `/api` name no resource. */
  lemma ExtractResourceUnknown()
    ensures ExtractResource("/") == "unknown"
    ensures ExtractResource("/api") == "unknown"
  {
    var root := ["", ""];
    assert "/" == Join(root, '/');
    assert NonEmpty(root) == [] by {
      assert root[1..] == [""];
    }
    ExtractResourceOfJoin(root);
    var api := ["", "api"];
    assert "/api" == Join(api, '/');
    assert NonEmpty(api) == ["api"] by {
      assert api[1..] == ["api"];
    }
    ExtractResourceOfJoin(api);
  }

  // ---------------------------------------------------------------------
  // mapMethodToAction

  /** mapMethodToAction on the upper-cased HTTP method. */
  function MapMethodToAction(verb: string): (action: AuditAction)
    ensures action == CREATE <==> ToUpperAscii(verb) == "POST"
    ensures action == UPDATE <==> ToUpperAscii(verb) == "PUT" || ToUpperAscii(verb) == "PATCH"
    ensures action == DELETE <==> ToUpperAscii(verb) == "DELETE"
    ensures action == READ <==>
              ToUpperAscii(verb) !in {"POST", "PUT", "PATCH", "DELETE"}
  {
    var m := ToUpperAscii(verb);
    if m == "POST" then CREATE
    else if m == "GET" then READ
    else if m == "PUT" || m == "PATCH" then UPDATE
    else if m == "DELETE" then DELETE
    else READ
  }

  /** The letter case of the method does not matter. */
  lemma MapMethodCaseInsensitive(verb: string)
    ensures MapMethodToAction(ToUpperAscii(verb)) == MapMethodToAction(verb)
  {
    ToUpperIdempotent(verb);
  }

  lemma MapMethodExamples()
    ensures MapMethodToAction("post") == CREATE
    ensures MapMethodToAction("Get") == READ
    ensures MapMethodToAction("patch") == UPDATE
    ensures MapMethodToAction("delete") == DELETE
    ensures MapMethodToAction("OPTIONS") == READ
  {
    assert ToUpperAscii("post") == "POST";
    assert ToUpperAscii("patch") == "PATCH";
    assert ToUpperAscii("delete") == "DELETE";
  }

  // ---------------------------------------------------------------------
  // The outcome rule

  /** The status fields of a thrown error; a property that is missing, or
      holds 0, is falsy. */
  datatype HttpError = HttpError(status: Option<int>, statusCode: Option<int>)

  /** `error.status || error.statusCode || 500`. */
  function StatusOf(e: HttpError): (code: int)
    ensures code != 0
    ensures e.status.Some? && e.status.value != 0 ==> code == e.status.value
    ensures (e.status.None? || e.status.value == 0) && e.statusCode.Some? && e.statusCode.value != 0 ==>
              code == e.statusCode.value
    ensures (e.status.None? || e.status.value == 0) && (e.statusCode.None? || e.statusCode.value == 0) ==>
              code == 500
  {
    if e.status.Some? && e.status.value != 0 then e.status.value
    else if e.statusCode.Some? && e.statusCode.value != 0 then e.statusCode.value
    else 500
  }

  /** The handler's outcome: a value, or a thrown error. */
  datatype Outcome<T> = Returned(value: T) | Threw(error: HttpError)

  /** `allowed`: true on success; on error, a status below 400, i.e. an
      informational, success or redirection class of section 15 of
      RFC 9110, never a client (4xx) or server (5xx) error. */
  function Allowed<T>(outcome: Outcome<T>): (allowed: bool)
    ensures outcome.Returned? ==> allowed
    ensures outcome.Threw? ==> (allowed <==> StatusOf(outcome.error) < 400)
    ensures outcome.Threw? && 400 <= StatusOf(outcome.error) < 600 ==> !allowed
  {
    match outcome
    case Returned(_) => true
    case Threw(e) => StatusOf(e) < 400
  }

  /** An error without a status of its own counts as a denied 500; a
      403 or 404 is denied; a status 0 falls through to statusCode. */
  lemma OutcomeExamples()
    ensures !Allowed<int>(Threw(HttpError(None, None)))
    ensures !Allowed<int>(Threw(HttpError(Some(403), None)))
    ensures !Allowed<int>(Threw(HttpError(Some(404), Some(200))))
    ensures Allowed<int>(Threw(HttpError(Some(0), Some(302))))
    ensures !Allowed<int>(Threw(HttpError(Some(0), Some(0))))
  {
  }

  // ---------------------------------------------------------------------
  // intercept

  /** What the interceptor reads off the request. */
  datatype Request = Request(
    user: Option<RequestUser>,
    verb: string,
    routePath: Option<string>,
    url: string,
    paramsId: Option<string>,
    ip: Option<string>,
    remoteAddress: Option<string>)

  /** `request.ip || request.connection?.remoteAddress`. */
  function ClientAddress(r: Request): (address: Option<string>)
    ensures r.ip.Some? && r.ip.value != [] ==> address == r.ip
    ensures r.ip.None? || r.ip.value == [] ==> address == r.remoteAddress
  {
    if r.ip.Some? && r.ip.value != [] then r.ip else r.remoteAddress
  }

  /** The entry logged for a request: user, mapped action, resource of the
      route path (else the URL), `params.id`, address, outcome rule. */
  function EntryFor<T>(r: Request, outcome: Outcome<T>): (entry: AuditEntry)
    ensures entry.user == r.user && entry.resourceId == r.paramsId && entry.changes == None
    ensures entry.action == MapMethodToAction(r.verb)
    ensures entry.resource == ExtractResource(r.routePath.GetOr(r.url))
    ensures entry.ipAddress == ClientAddress(r)
    ensures entry.allowed == Allowed(outcome)
  {
    AuditEntry(r.user, MapMethodToAction(r.verb), ExtractResource(r.routePath.GetOr(r.url)),
               r.paramsId, Allowed(outcome), ClientAddress(r), None)
  }

  /** intercept, once the handler has produced `outcome`: exactly one
      record appended, and the outcome (value or the same error) passed
      on. `newId` is the new record's key. */
  method Intercept<T>(svc: AuditService, r: Request, outcome: Outcome<T>, newId: string)
    returns (result: Outcome<T>)
    requires svc.Valid()
    modifies svc
    ensures svc.Valid() && svc.orgs == old(svc.orgs) && svc.users == old(svc.users)
    ensures result == outcome
    ensures svc.logs == old(svc.logs) + [NewRecord(EntryFor(r, outcome), newId, old(svc.clock))]
  {
    var resource := ExtractResource(r.routePath.GetOr(r.url));
    var action := MapMethodToAction(r.verb);
    var ipAddress := ClientAddress(r);
    match outcome {
      case Returned(_) =>
        var _ := svc.Log(AuditEntry(r.user, action, resource, r.paramsId, true, ipAddress, None), newId);
      case Threw(e) =>
        var statusCode := StatusOf(e);
        var allowed := statusCode < 400;
        var _ := svc.Log(AuditEntry(r.user, action, resource, r.paramsId, allowed, ipAddress, None), newId);
    }
    result := outcome;
  }
}
