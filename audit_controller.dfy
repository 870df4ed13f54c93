/** GET /audit-log (audit.controller.ts): OWNER and ADMIN only; the
    `limit` query string parsed, defaulted and capped, then the service's
    listing. */
module AuditApi {
  import opened Common
  import opened JsText
  import opened RolesGuard
  import opened Audit

  /** The `@Roles(...)` metadata of the route. */
  const AuditRoles: seq<Role> := [OWNER, ADMIN]

  const DefaultLimit: int := 100
  const MaxLimit: int := 500

  /** `limit ? Math.min(parseInt(limit, 10) || 100, 500) : 100`: an absent
      or empty string, NaN and 0 give 100; larger values are capped at
      500; there is no lower bound. */
  function ParseLimit(limit: Option<string>): (n: int)
    ensures limit == None || limit == Some("") ==> n == DefaultLimit
    ensures limit.Some? && limit.value != [] ==>
              match ParseInt(limit.value)
              case None => n == DefaultLimit
              case Some(v) =>
                && (v == 0 ==> n == DefaultLimit)
                && (1 <= v <= MaxLimit ==> n == v)
                && (v > MaxLimit ==> n == MaxLimit)
                && (v < 0 ==> n == v)
    ensures n != 0 && n <= MaxLimit
  {
    if limit.None? || limit.value == [] then DefaultLimit
    else
      var parsed := ParseInt(limit.value);
      var v := if parsed.None? || parsed.value == 0 then DefaultLimit else parsed.value;
      if v < MaxLimit then v else MaxLimit
  }

  /** Decimal limits: 1..500 pass through, larger ones become 500, "0"
      becomes 100, a negative one passes through. */
  lemma ParseLimitOfNumber(n: nat)
    ensures 1 <= n <= MaxLimit ==> ParseLimit(Some(Show(n))) == n
    ensures n > MaxLimit ==> ParseLimit(Some(Show(n))) == MaxLimit
    ensures n == 0 ==> ParseLimit(Some(Show(n))) == DefaultLimit
  {
    ParseIntShow(n);
  }

  lemma ParseLimitOfNegative(n: nat)
    requires n >= 1
    ensures ParseLimit(Some("-" + Show(n))) == -(n as int)
  {
    ParseIntShowNegative(n);
  }

  /** parseInt skips leading white space and a plus sign, so
      `?limit=+7` and `?limit=%207` read as 7. */
  lemma ParseLimitSignedOrSpaced(ws: string, n: nat)
    requires forall i :: 0 <= i < |ws| ==> IsJsWhiteSpace(ws[i])
    requires 1 <= n <= MaxLimit
    ensures ParseLimit(Some("+" + Show(n))) == n
    ensures ParseLimit(Some(ws + Show(n))) == n
  {
    ParseIntShowPlus(n);
    ParseLimitOfValue("+" + Show(n), n);
    ParseIntShowAfterWhiteSpace(ws, n);
    ParseLimitOfValue(ws + Show(n), n);
  }

  /** A string that parses to a value within the bounds gives that value. */
  lemma ParseLimitOfValue(s: string, v: int)
    requires s != [] && ParseInt(s) == Some(v) && 1 <= v <= MaxLimit
    ensures ParseLimit(Some(s)) == v
  {
  }

  /** Garbage and the empty string give the default. */
  lemma ParseLimitExamples()
    ensures ParseLimit(None) == DefaultLimit
    ensures ParseLimit(Some("")) == DefaultLimit
    ensures ParseLimit(Some("abc")) == DefaultLimit
  {
    assert !IsJsWhiteSpace('a') && !IsDigit('a');
  }

  /** The role gate of the route: VIEWER denied, OWNER and ADMIN
      admitted; no token is rejected before the role check. */
  function Admitted(user: Option<RequestUser>): (allow: bool)
    ensures allow <==> user.Some? && user.value.role != VIEWER
  {
    user.Some? && CanActivate(Some(AuditRoles), None, user)
  }

  /** The bound the controller puts on a listing: at most 500 rows for
      a positive limit; a negative one lists every in-scope record. */
  lemma ListingBound(logs: seq<AuditLog>, orgs: seq<OrgScope.OrgReference>, users: seq<UserRecord>,
                     user: RequestUser, limit: Option<string>)
    ensures ParseLimit(limit) > 0 ==> |Listing(logs, orgs, users, user, ParseLimit(limit))| <= MaxLimit
    ensures ParseLimit(limit) < 0 ==>
              Listing(logs, orgs, users, user, ParseLimit(limit)) ==
              ProjectAll(Reverse(ScopeFilter(logs, AuditScope(orgs, user))), users)
  {
  }

  /** The controller over one service instance. */
  class AuditController {
    const service: AuditService

    constructor (service: AuditService)
      ensures this.service == service
    {
      this.service := service;
    }

    /** findAll once admitted: the listing for the parsed limit. */
    method FindAll(user: RequestUser, limit: Option<string>) returns (rows: seq<AuditLogResponse>)
      requires service.Valid()
      ensures rows == Listing(service.logs, service.orgs, service.users, user, ParseLimit(limit))
      ensures |rows| <= MaxLimit || ParseLimit(limit) < 0
      ensures NewestFirst(rows)
    {
      var parsedLimit := ParseLimit(limit);
      rows := service.FindAll(user, parsedLimit);
    }
  }
}
