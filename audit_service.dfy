/** The audit trail (audit.service.ts): an append-only table of audit
    records, and the org-scoped, newest-first listing of it. `createdAt` is
    a counter the service advances on every write. */
module Audit {
  import opened Common
  import opened OrgScope
  import opened Tasks

  datatype AuditAction = CREATE | READ | UPDATE | DELETE

  /** What the interceptor hands to `log`. `changes` is the serialized
      change set. */
  datatype AuditEntry = AuditEntry(
    user: Option<RequestUser>,
    action: AuditAction,
    resource: string,
    resourceId: Option<string>,
    allowed: bool,
    ipAddress: Option<string>,
    changes: Option<string>)

  /** One row of the audit table. */
  datatype AuditLog = AuditLog(
    id: string,
    action: AuditAction,
    entityType: string,
    entityId: string,
    userId: Option<string>,
    organizationId: Option<string>,
    changes: Option<string>,
    ipAddress: Option<string>,
    allowed: bool,
    createdAt: nat)

  /** One row of the users table, credential included. */
  datatype UserRecord = UserRecord(id: string, email: string, passwordHash: string, role: Role, organizationId: string)

  /** The acting user as the listing shows it. */
  datatype UserSummary = UserSummary(id: string, email: string, role: Role)

  /** One row of the listing. It has no `changes` and no credential. */
  datatype AuditLogResponse = AuditLogResponse(
    id: string,
    action: AuditAction,
    entityType: string,
    entityId: string,
    userId: Option<string>,
    organizationId: Option<string>,
    allowed: bool,
    ipAddress: Option<string>,
    createdAt: nat,
    user: Option<UserSummary>)

  /** The entity id stored when the entry names none. */
  const NoEntityId: string := "N/A"

  // ---------------------------------------------------------------------
  // Record construction

  /** The record `log` builds for an entry, with the generated id and the
      clock reading. */
  function NewRecord(entry: AuditEntry, id: string, now: nat): (r: AuditLog)
    ensures r.userId.Some? <==> entry.user.Some?
    ensures r.organizationId.Some? <==> entry.user.Some?
    ensures entry.user.Some? ==> r.userId == Some(entry.user.value.userId) && r.organizationId == Some(entry.user.value.orgId)
    ensures entry.resourceId.Some? ==> r.entityId == entry.resourceId.value
    ensures entry.resourceId.None? ==> r.entityId == NoEntityId
    ensures r.action == entry.action && r.entityType == entry.resource && r.allowed == entry.allowed
    ensures r.ipAddress == entry.ipAddress && r.changes == entry.changes
    ensures r.id == id && r.createdAt == now
  {
    AuditLog(
      id, entry.action, entry.resource, entry.resourceId.GetOr(NoEntityId),
      if entry.user.Some? then Some(entry.user.value.userId) else None,
      if entry.user.Some? then Some(entry.user.value.orgId) else None,
      entry.changes, entry.ipAddress, entry.allowed, now)
  }

  // ---------------------------------------------------------------------
  // The listing

  /** The audit service's own getOrgScope: the caller's org, plus the
      children of a root org for its OWNER; just the caller's org when the
      org is not found. */
  function AuditScope(orgs: seq<OrgReference>, user: RequestUser): (ids: seq<string>)
    ensures |ids| >= 1 && ids[0] == user.orgId
    ensures forall id :: id in ids <==>
              || id == user.orgId
              || (&& FindOrg(orgs, user.orgId).Some?
                  && FindOrg(orgs, user.orgId).value.parentId == None
                  && user.role == OWNER
                  && exists o :: o in orgs && o.id == id && o.parentId == Some(user.orgId))
  {
    match FindOrg(orgs, user.orgId)
    case None => [user.orgId]
    case Some(userOrg) =>
      if userOrg.parentId == None && user.role == OWNER then
        var children := ChildrenOf(orgs, userOrg.id);
        forall id ensures id in Ids(children) <==> exists o :: o in children && o.id == id {
          InIds(children, id);
        }
        [user.orgId] + Ids(children)
      else [user.orgId]
  }

  /** createdAt strictly increases along the table. */
  predicate OldestFirst(logs: seq<AuditLog>) {
    forall i, j :: 0 <= i < j < |logs| ==> logs[i].createdAt < logs[j].createdAt
  }

  /** createdAt strictly decreases along a listing. */
  predicate NewestFirst(rows: seq<AuditLogResponse>) {
    forall i, j :: 0 <= i < j < |rows| ==> rows[i].createdAt > rows[j].createdAt
  }

  /** A row passes `organizationId IN (ids)`; a NULL org never does. */
  predicate InScope(l: AuditLog, ids: seq<string>) {
    l.organizationId.Some? && l.organizationId.value in ids
  }

  /** The rows of the WHERE clause, in table order. */
  function ScopeFilter(logs: seq<AuditLog>, ids: seq<string>): (r: seq<AuditLog>)
    ensures |r| <= |logs|
    ensures forall l :: l in r <==> l in logs && InScope(l, ids)
    ensures OldestFirst(logs) ==> OldestFirst(r)
  {
    if logs == [] then []
    else
      var rest := ScopeFilter(logs[1..], ids);
      OldestFirstTail(logs);
      if InScope(logs[0], ids) then
        OldestFirstPrepend(logs[0], rest);
        [logs[0]] + rest
      else rest
  }

  /** The tail of an oldest-first table is oldest-first and newer than its
      head. */
  lemma OldestFirstTail(logs: seq<AuditLog>)
    requires logs != []
    ensures OldestFirst(logs) ==> OldestFirst(logs[1..])
    ensures OldestFirst(logs) ==> forall l :: l in logs[1..] ==> logs[0].createdAt < l.createdAt
  {
    if OldestFirst(logs) {
      forall l | l in logs[1..] ensures logs[0].createdAt < l.createdAt {
        var k :| 0 <= k < |logs[1..]| && logs[1..][k] == l;
        assert logs[k + 1] == l;
      }
    }
  }

  /** A record older than every one of an oldest-first list can go in
      front of it. */
  lemma OldestFirstPrepend(x: AuditLog, rest: seq<AuditLog>)
    ensures OldestFirst(rest) && (forall l :: l in rest ==> x.createdAt < l.createdAt) ==>
              OldestFirst([x] + rest)
  {
    if OldestFirst(rest) && forall l :: l in rest ==> x.createdAt < l.createdAt {
      var r := [x] + rest;
      forall i, j | 0 <= i < j < |r| ensures r[i].createdAt < r[j].createdAt {
        assert r[j] == rest[j - 1];
        if i > 0 {
          assert r[i] == rest[i - 1];
        } else {
          assert rest[j - 1] in rest;
        }
      }
    }
  }

  /** Table order reversed. */
  function Reverse(s: seq<AuditLog>): (r: seq<AuditLog>)
    ensures |r| == |s|
    ensures forall i :: 0 <= i < |s| ==> r[i] == s[|s| - 1 - i]
  {
    if s == [] then [] else Reverse(s[1..]) + [s[0]]
  }

  /** `take(limit)`: at most `limit` rows for a positive limit. A zero
      limit is ignored, and a negative LIMIT has no upper bound. */
  function Take(s: seq<AuditLog>, limit: int): (r: seq<AuditLog>)
    ensures limit > 0 ==> |r| == if |s| < limit then |s| else limit
    ensures limit <= 0 ==> r == s
    ensures r <= s
  {
    if limit > 0 && limit < |s| then s[..limit] else s
  }

  /** `log.user` from the left join: None for a NULL userId or a row with
      no matching user. */
  function FindUser(users: seq<UserRecord>, id: Option<string>): (u: Option<UserRecord>)
    ensures u.Some? ==> id.Some? && u.value in users && u.value.id == id.value
    ensures u.None? <==> id.None? || forall x :: x in users ==> x.id != id.value
  {
    if id.None? || users == [] then None
    else if users[0].id == id.value then Some(users[0])
    else FindUser(users[1..], id)
  }

  /** The response shape of one row. */
  function Project(l: AuditLog, users: seq<UserRecord>): (p: AuditLogResponse)
    ensures p.id == l.id && p.action == l.action && p.entityType == l.entityType && p.entityId == l.entityId
    ensures p.userId == l.userId && p.organizationId == l.organizationId && p.allowed == l.allowed
    ensures p.ipAddress == l.ipAddress && p.createdAt == l.createdAt
    ensures p.user.Some? <==> FindUser(users, l.userId).Some?
    ensures p.user.Some? ==>
              var u := FindUser(users, l.userId).value;
              p.user.value == UserSummary(u.id, u.email, u.role)
  {
    var u := FindUser(users, l.userId);
    AuditLogResponse(l.id, l.action, l.entityType, l.entityId, l.userId, l.organizationId,
                     l.allowed, l.ipAddress, l.createdAt,
                     if u.Some? then Some(UserSummary(u.value.id, u.value.email, u.value.role)) else None)
  }

  function ProjectAll(s: seq<AuditLog>, users: seq<UserRecord>): (r: seq<AuditLogResponse>)
    ensures |r| == |s| && forall i :: 0 <= i < |s| ==> r[i] == Project(s[i], users)
  {
    seq(|s|, i requires 0 <= i < |s| => Project(s[i], users))
  }

  /** The in-scope rows, newest first, cut to the limit: the rows findAll
      projects. */
  function Listed(logs: seq<AuditLog>, ids: seq<string>, limit: int): (r: seq<AuditLog>)
    ensures limit > 0 ==> |r| <= limit
    ensures forall l :: l in r ==> l in logs && InScope(l, ids)
  {
    Take(Reverse(ScopeFilter(logs, ids)), limit)
  }

  /** What findAll returns for a caller and limit. */
  function Listing(logs: seq<AuditLog>, orgs: seq<OrgReference>, users: seq<UserRecord>,
                   user: RequestUser, limit: int): (rows: seq<AuditLogResponse>)
    ensures limit > 0 ==> |rows| <= limit
    ensures forall i :: 0 <= i < |rows| ==>
              rows[i].organizationId.Some? && rows[i].organizationId.value in AuditScope(orgs, user)
    ensures forall i :: 0 <= i < |rows| ==>
              exists l :: l in logs && InScope(l, AuditScope(orgs, user)) && rows[i] == Project(l, users)
  {
    var listed := Listed(logs, AuditScope(orgs, user), limit);
    assert forall i :: 0 <= i < |listed| ==> listed[i] in listed;
    ProjectAll(listed, users)
  }

  // ---------------------------------------------------------------------
  // Properties of the listing

  /** A table in creation order lists newest first. */
  lemma ListingNewestFirst(logs: seq<AuditLog>, orgs: seq<OrgReference>, users: seq<UserRecord>,
                           user: RequestUser, limit: int)
    requires OldestFirst(logs)
    ensures NewestFirst(Listing(logs, orgs, users, user, limit))
  {
    var f := ScopeFilter(logs, AuditScope(orgs, user));
    var rv := Reverse(f);
    var t := Take(rv, limit);
    assert forall i, j :: 0 <= i < j < |t| ==> t[i] == rv[i] && t[j] == rv[j];
  }

  /** Nothing in scope is dropped unless the limit cuts it: with no
      effective limit, or few enough rows, every in-scope record is listed. */
  lemma ListingComplete(logs: seq<AuditLog>, orgs: seq<OrgReference>, users: seq<UserRecord>,
                        user: RequestUser, limit: int, l: AuditLog)
    requires l in logs && InScope(l, AuditScope(orgs, user))
    requires limit <= 0 || |ScopeFilter(logs, AuditScope(orgs, user))| <= limit
    ensures Project(l, users) in Listing(logs, orgs, users, user, limit)
  {
    var f := ScopeFilter(logs, AuditScope(orgs, user));
    var k :| 0 <= k < |f| && f[k] == l;
    var rv := Reverse(f);
    assert rv[|f| - 1 - k] == l;
    var listed := Listed(logs, AuditScope(orgs, user), limit);
    assert listed == rv;
    assert Listing(logs, orgs, users, user, limit)[|f| - 1 - k] == Project(l, users);
  }

  /** What a cutting limit keeps: if an in-scope record is missing from
      the listing, exactly `limit` rows came back, all of them newer than
      that record. */
  lemma ListingKeepsNewest(logs: seq<AuditLog>, orgs: seq<OrgReference>, users: seq<UserRecord>,
                           user: RequestUser, limit: int, l: AuditLog)
    requires OldestFirst(logs) && 0 < limit
    requires l in logs && InScope(l, AuditScope(orgs, user))
    requires Project(l, users) !in Listing(logs, orgs, users, user, limit)
    ensures |Listing(logs, orgs, users, user, limit)| == limit
    ensures forall r :: r in Listing(logs, orgs, users, user, limit) ==> l.createdAt < r.createdAt
  {
    var f := ScopeFilter(logs, AuditScope(orgs, user));
    var k :| 0 <= k < |f| && f[k] == l;
    TakeNewestKeepsNewest(f, users, limit, k);
  }

  /** The same on the scope's rows: an oldest-first list, reversed and cut,
      that misses its k-th row kept only rows newer than it. */
  lemma TakeNewestKeepsNewest(f: seq<AuditLog>, users: seq<UserRecord>, limit: int, k: int)
    requires OldestFirst(f) && 0 < limit && 0 <= k < |f|
    requires Project(f[k], users) !in ProjectAll(Take(Reverse(f), limit), users)
    ensures |ProjectAll(Take(Reverse(f), limit), users)| == limit
    ensures forall r :: r in ProjectAll(Take(Reverse(f), limit), users) ==> f[k].createdAt < r.createdAt
  {
    var rv := Reverse(f);
    var listed := Take(rv, limit);
    var rows := ProjectAll(listed, users);
    var p := |f| - 1 - k;
    assert rv[p] == f[k];
    ListedAt(rv, users, limit, p);
    assert |rows| <= p;
    forall r | r in rows ensures f[k].createdAt < r.createdAt {
      var i :| 0 <= i < |rows| && rows[i] == r;
      assert listed[i] == f[|f| - 1 - i];
      assert k < |f| - 1 - i;
    }
  }

  /** The p-th row of a list shows up in its projection whenever the cut
      keeps it. */
  lemma ListedAt(rv: seq<AuditLog>, users: seq<UserRecord>, limit: int, p: int)
    requires 0 <= p < |rv|
    ensures p < |ProjectAll(Take(rv, limit), users)| ==> Project(rv[p], users) in ProjectAll(Take(rv, limit), users)
  {
    var rows := ProjectAll(Take(rv, limit), users);
    if p < |rows| {
      assert rows[p] == Project(rv[p], users);
    }
  }

  /** A record just appended in the caller's scope heads the caller's
      next listing. */
  lemma LoggedRecordListedFirst(logs: seq<AuditLog>, orgs: seq<OrgReference>, users: seq<UserRecord>,
                                user: RequestUser, limit: int, rec: AuditLog)
    requires InScope(rec, AuditScope(orgs, user))
    ensures |Listing(logs + [rec], orgs, users, user, limit)| >= 1
    ensures Listing(logs + [rec], orgs, users, user, limit)[0] == Project(rec, users)
  {
    ScopeFilterAppend(logs, rec, AuditScope(orgs, user));
  }

  lemma {:induction false} ScopeFilterAppend(logs: seq<AuditLog>, rec: AuditLog, ids: seq<string>)
    requires InScope(rec, ids)
    ensures ScopeFilter(logs + [rec], ids) == ScopeFilter(logs, ids) + [rec]
  {
    if logs == [] {
      assert [] + [rec] == [rec];
      assert [rec][1..] == [];
    } else {
      assert (logs + [rec])[1..] == logs[1..] + [rec];
      ScopeFilterAppend(logs[1..], rec, ids);
    }
  }

  /** Where the org is found, the audit scope lists the same org ids as
      the task scope, in the same order; on a lookup miss the audit side
      fails open to the caller's claimed org while the task side allows
      nothing. */
  lemma AuditScopeVersusTaskScope(orgs: seq<OrgReference>, user: RequestUser)
    ensures FindOrg(orgs, user.orgId).Some? ==> AuditScope(orgs, user) == TaskScope(orgs, user).allowedOrgIds
    ensures FindOrg(orgs, user.orgId).None? ==>
              AuditScope(orgs, user) == [user.orgId] && TaskScope(orgs, user).allowedOrgIds == []
  {
  }

  /** A member of a child org, whatever the role, an ADMIN or VIEWER
      anywhere, and a caller whose org is not in the table, see only
      entries of their own org. */
  lemma OwnOrgOnly(logs: seq<AuditLog>, orgs: seq<OrgReference>, users: seq<UserRecord>,
                   user: RequestUser, limit: int)
    requires || user.role != OWNER
             || FindOrg(orgs, user.orgId).None?
             || (FindOrg(orgs, user.orgId).Some? && FindOrg(orgs, user.orgId).value.parentId.Some?)
    ensures forall r :: r in Listing(logs, orgs, users, user, limit) ==> r.organizationId == Some(user.orgId)
  {
    var ids := AuditScope(orgs, user);
    assert forall id :: id in ids ==> id == user.orgId;
  }

  /** The table and its two lookup tables. */
  class AuditService {
    var logs: seq<AuditLog>
    var orgs: seq<OrgReference>
    var users: seq<UserRecord>
    /** The `createdAt` of the next record. */
    var clock: nat

    /** Records are in creation order, all stamped before `clock`. */
    ghost predicate Valid()
      reads this
    {
      OldestFirst(logs) && forall l :: l in logs ==> l.createdAt < clock
    }

    constructor (orgs: seq<OrgReference>, users: seq<UserRecord>)
      ensures Valid() && logs == [] && this.orgs == orgs && this.users == users
    {
      logs := [];
      this.orgs := orgs;
      this.users := users;
      clock := 0;
    }

    /** log: appends exactly one record and leaves the earlier ones as
        they were. `newId` is the generated key. */
    method Log(entry: AuditEntry, newId: string) returns (saved: AuditLog)
      requires Valid()
      modifies this
      ensures Valid() && orgs == old(orgs) && users == old(users)
      ensures saved == NewRecord(entry, newId, old(clock))
      ensures logs == old(logs) + [saved]
      ensures clock > old(clock)
    {
      saved := NewRecord(entry, newId, clock);
      logs := logs + [saved];
      clock := clock + 1;
    }

    /** getOrgScope. */
    method GetOrgScope(user: RequestUser) returns (ids: seq<string>)
      ensures ids == AuditScope(orgs, user)
    {
      var userOrg := FindOrg(orgs, user.orgId);
      if userOrg.None? {
        return [user.orgId];
      }
      if userOrg.value.parentId == None && user.role == OWNER {
        var childOrgs := ChildrenOf(orgs, userOrg.value.id);
        return [user.orgId] + Ids(childOrgs);
      }
      return [user.orgId];
    }

    /** findAll: in-scope records only, newest first, at most `limit` of
        them for a positive limit, in the response shape. */
    method FindAll(user: RequestUser, limit: int) returns (rows: seq<AuditLogResponse>)
      requires Valid()
      ensures rows == Listing(logs, orgs, users, user, limit)
      ensures NewestFirst(rows)
      ensures limit > 0 ==> |rows| <= limit
      ensures forall i :: 0 <= i < |rows| ==>
                rows[i].organizationId.Some? && rows[i].organizationId.value in AuditScope(orgs, user)
    {
      var allowedOrgIds := GetOrgScope(user);
      var matching := ScopeFilter(logs, allowedOrgIds);
      var newest := Take(Reverse(matching), limit);
      rows := ProjectAll(newest, users);
      ListingNewestFirst(logs, orgs, users, user, limit);
    }
  }
}
