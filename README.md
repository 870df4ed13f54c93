# Multi-tenant task API: authorization and audit, in Dafny

This project models the authorization-and-audit core of a multi-tenant task
API (a NestJS back end with an Angular dashboard) and proves properties of
the model. The core has five parts:

- **Organisation scoping.** Organisations form a two-level hierarchy: a root
  organisation (no parent) and its direct children. `resolveOrgScope`
  computes the organisation ids a principal may see. `canAccessOrg` decides a
  single cross-organisation access. Module `OrgScope`.
- **The role gate.** `RolesGuard.canActivate` is a membership test of the
  request user's role in the route's `@Roles(...)` metadata. Modules
  `RolesGuard`, `TasksApi` and `AuditApi` hold it and the role set of each
  route.
- **The scoped task service and its controller.** Module `Tasks` is a class
  over an in-memory organisation table and task table, with these operations:
  - list, filtered and sorted;
  - get, which gives a null answer both for a missing task and for a denied
    one;
  - create, at position max + 1;
  - update and delete, both gated through get.

  Module `TasksApi` is the HTTP layer. It decides 401 versus 403 before the
  handler runs. It maps every null or false result to the same 404
  "Task not found or access denied".
- **Audit.** Module `Audit` is the audit service:
  - `log` builds one record and appends it;
  - `findAll` filters by the audit scope, orders newest-first, truncates to
    the limit, and projects each row without secret user fields.

  Module `AuditInterceptor` holds the interceptor and its helpers:
  - `extractResource`, `mapMethodToAction` and the outcome rule
    (`allowed` when the status is below 400);
  - one log call per handled request, with the outcome passed on unchanged.

  Module `AuditApi` holds the `/audit-log` route: its role set and its
  `limit` query-string expression.
- **Small parsers and list operations.**
  - `parseExpiry` of the auth module, in module `AuthModule`.
  - The dashboard's task store, in module `Dashboard`: the filter merge, the
    query built by `load`, and the optimistic `reorder`. `reorder` copies the
    list and moves one element with an in-place array loop.

Supporting modules:

- `Common`: `Option`, `Role` and `RequestUser`.
- `JsText`: the JavaScript built-ins the core relies on. These are
  `parseInt(s, 10)`, `split` followed by `filter(Boolean)`, and ASCII
  `toUpperCase`.
- `TaskEntity`: the task record and its defaults.
- `TaskOrder`: the `ORDER BY organizationId, position` order and an insertion
  sort that realises it.

Inputs the program gets from outside are parameters of the model:

- the database-generated ids (`newId`);
- the request (user, method, route path, URL, `params.id`, address);
- the handler's outcome (a value, or an error with `status`/`statusCode`);
- the responses of the dashboard's HTTP calls (`Loaded`).

The database rows are sequences in storage order. `createdAt` of audit rows
is a counter, `clock`, held by the audit service. It strictly increases with
every `log`.

### Where the code departs from the documented design

The model follows the code in each of these cases.

- **Duplicate scope ids.** `resolveOrgScope` never removes duplicate ids and
  never reads a child's `parentId`. `OrgScope.ScopeDistinctIff` states exactly
  when the scope is duplicate-free.
- **Org-lookup miss.**
  - The task service fails closed: an empty scope.
  - The audit service fails open: `[user.orgId]`.
  - `Audit.AuditScopeVersusTaskScope` states both cases.
- **No lower clamp on the audit limit.**
  - The limit is capped at 500 but has no lower bound.
  - A negative parsed value passes through.
  - `"0"` and non-numbers become 100.
  - The database is SQLite (`api/src/database/database.module.ts:8`). A
    negative `LIMIT` there sets no bound, and the ORM drops a `take` of 0. So
    the model's listing returns every in-scope record for a limit ≤ 0.
- **Task routes are not audited.**
  - Only the `/audit-log` controller carries the interceptor.
  - No global interceptor is registered (`api/src/app/app.module.ts:10-20`).
  - No "one audit entry per task operation" property is claimed.
- **Task positions.** Positions need not be unique: `update` can give two
  tasks the same position, and concurrent creates can read the same maximum.
  The service itself takes any integer. The update DTO's `@Min(0)`
  (`api/src/tasks/dto/update-task.dto.ts:23-26`) keeps positions written by
  clients at 0 or above, and `create` only writes max + 1 ≥ 0.
- **Audit `entityId`.** It is `"N/A"`, not null, when the request has no
  `id` parameter.

## Model

| member | source | states |
|---|---|---|
| OrgScope.ScopeOf | auth/src/lib/helpers/org-scope.helper.ts:39-62 | `isParentOrg` iff the user's org has no parent. `canAccessChildren` iff it is a root and the role is OWNER. The first allowed id is the user's org. With child access the rest are the child ids in input order, duplicates kept; otherwise the scope is exactly `[user.orgId]`. Membership iff own org or (child access and some child's id). |
| OrgScope.ResolveOrgScope | auth/src/lib/helpers/org-scope.helper.ts:44-55 | The push loop builds exactly the scope `ScopeOf` describes. |
| OrgScope.CanAccessOrg | auth/src/lib/helpers/org-scope.helper.ts:73-96 | Same org is allowed for every role, even with no target record. A different org is allowed iff all hold: the user's org is a root, the role is OWNER, the target record exists, and its parent is the user's org. |
| OrgScope.GetOrgIdsForQuery | auth/src/lib/helpers/org-scope.helper.ts:115-121 | Equals the allowed ids of the resolved scope. |
| OrgScope.ChildOrgPrincipalConfined | auth/src/lib/helpers/org-scope.helper.ts:85-88 | A principal whose org has a parent is granted no other org id, by either function, whatever the role. |
| OrgScope.ScopeAgreesWithAccess | auth/src/lib/helpers/org-scope.helper.ts:39-96 | Consistency. Suppose `user.orgId == userOrg.id` and every child's parent is the user's org. Then for the user's org and each child, `canAccessOrg` holds iff the org id is in the resolved scope. Distinct child ids are not needed. |
| OrgScope.ScopeDistinctIff | auth/src/lib/helpers/org-scope.helper.ts:51-55 | The scope is duplicate-free iff either there is no child access, or the child ids are distinct and all differ from the own id. |
| OrgScope.RootAndChildScenario | auth/src/lib/helpers/org-scope.helper.spec.ts:19-97 | For a root R with child C: OWNER of R sees `[R, C]` and may reach C. ADMIN of C sees `[C]` and may not reach R. |
| RolesGuard.RequiredRoles | auth/src/lib/guards/roles.guard.js:13-16 | Handler metadata overrides class metadata; class metadata applies only when the handler has none. |
| RolesGuard.RoleOf | auth/src/lib/guards/roles.guard.js:21-23 | A role exists iff there is a request user, and it is that user's role. |
| RolesGuard.Decide | auth/src/lib/guards/roles.guard.js:18-26 | No or empty required roles: allow. Required roles with no user role: deny. Otherwise allow iff the role is among the required ones. |
| RolesGuard.CanActivate | auth/src/lib/guards/roles.guard.js:12-27 | Non-empty handler roles: allow iff a user is present with one of them. A bare `@Roles()` on the handler (empty list) overrides the class and allows. No handler roles: the class-level decision. |
| TasksApi.RouteRoles | api/src/tasks/tasks.controller.ts:31-77 | Every route admits OWNER and ADMIN. VIEWER is admitted iff the route is a read (list or get). |
| TasksApi.SuccessStatus | api/src/tasks/tasks.controller.ts:30-76 | Success codes are 2xx: 201 iff create, 204 iff delete, 200 otherwise. |
| TasksApi.Admit | api/src/tasks/tasks.controller.ts:25 | JWT first: no user gives 401 "Unauthorized". Then roles: a user passes iff their role is in the route's set, else 403 "Forbidden resource". |
| TasksApi.GetResponse | api/src/tasks/tasks.controller.ts:39-51 | GET /tasks/:id: no user gives 401, and an authenticated user is never refused with 403. The 404 comes iff the service finds no visible task; otherwise a 200 with that task. |
| TasksApi.RouteAccess | api/src/tasks/tasks.controller.ts:25-77 | A VIEWER is refused with 403 exactly on the write routes. OWNER and ADMIN pass every route. No token gives 401 everywhere. |
| TasksApi.IntegrationScenarios | api/src/tasks/tasks.controller.spec.ts:109-184 | 401 on every route without a token. VIEWER may list but is refused create, update and delete. ADMIN may list and create; create answers 201. |
| TasksApi.NotFoundIndistinguishable | api/src/tasks/tasks.controller.ts:46-50 | GET of a task outside the caller's scope gives the same response as GET of an id that does not exist: a 404 with the same message. |
| TasksApi.GetRespectsScope | api/src/tasks/tasks.controller.ts:39-51 | GET of a stored task answers 200 with that task iff its org is in the caller's task scope; otherwise the 404. |
| TasksApi.TasksController.FindAll | api/src/tasks/tasks.controller.ts:29-37 | A rejected caller gets the gate's response. Otherwise a 200 with the service's sorted, scoped, filtered list. |
| TasksApi.TasksController.FindOne | api/src/tasks/tasks.controller.ts:39-51 | The response is the gate's rejection, or 200 with the visible task, or the 404 when the service finds nothing. |
| TasksApi.TasksController.Create | api/src/tasks/tasks.controller.ts:53-58 | A rejected caller leaves the store unchanged. Otherwise a 201 with the created task, which is the one appended. |
| TasksApi.TasksController.Update | api/src/tasks/tasks.controller.ts:60-73 | A rejected caller leaves the store unchanged. A task not visible gives the 404 and no change. Otherwise a 200 with the patched task. |
| TasksApi.TasksController.Delete | api/src/tasks/tasks.controller.ts:75-86 | A rejected caller leaves the store unchanged. A task not visible gives the 404 and no change. Otherwise a 204 and the task is removed. |
| Tasks.FindOrg | api/src/tasks/tasks.service.ts:28-30 | A found org is in the table with that id. None iff no row has the id. |
| Tasks.FindTaskIndex | api/src/tasks/tasks.service.ts:76-79 | The task lookup by id: a found index holds a task with that id. None iff no stored task has it. |
| Tasks.ChildrenOf | api/src/tasks/tasks.service.ts:39-42 | Exactly the table's orgs whose parent is the given id. |
| Tasks.TaskScope | api/src/tasks/tasks.service.ts:26-46 | An org-lookup miss gives an empty scope with both flags false. A child org gets `resolveOrgScope` with no children. Membership: own org, or (OWNER of a root) one of its children. |
| Tasks.Matching | api/src/tasks/tasks.service.ts:54-64 | Exactly the stored tasks whose org is allowed and that agree with each given filter; a sub-multiset of the table. |
| Tasks.Visible | api/src/tasks/tasks.service.ts:75-97 | None iff the id is missing, the user's org is missing, or `canAccessOrg` refuses the task's org. Otherwise the stored task unchanged. |
| Tasks.MaxPosition | api/src/tasks/tasks.service.ts:107-111 | `MAX(position)` over the org's tasks: none iff the org has none; otherwise a bound reached by some task. |
| Tasks.NextPosition | api/src/tasks/tasks.service.ts:119 | The new position exceeds every position in the org. It is 0 for an org without tasks, and max + 1 otherwise. |
| Tasks.ApplyPatch | api/src/tasks/tasks.service.ts:138 | Each present patch field is overwritten and each absent one kept. An explicit null clears `description` or `category`. `id`, `ownerId` and `organizationId` are unchanged. |
| Tasks.ApplyPatchIdempotent | api/src/tasks/tasks.service.ts:138 | Applying a patch twice equals applying it once; the empty patch changes nothing. |
| Tasks.ListAndGetAgree | api/src/tasks/tasks.service.ts:51-97 | With unique ids, a stored task is returned by get iff its org is in the scope the list uses. |
| Tasks.GetOutsideScopeIsNone | api/src/tasks/tasks.service.ts:91-94 | A task whose org lies outside the scope is not returned by get. |
| Tasks.TasksService.GetOrgScope | api/src/tasks/tasks.service.ts:26-46 | The service's scope is `TaskScope` of its tables. |
| Tasks.TasksService.FindAll | api/src/tasks/tasks.service.ts:51-70 | The result is sorted by org id, then position. It is a permutation of the matching tasks. It holds exactly the stored tasks in scope that pass the filters. |
| Tasks.TasksService.FindOne | api/src/tasks/tasks.service.ts:75-97 | The result is `Visible` of the current tables. |
| Tasks.TasksService.Create | api/src/tasks/tasks.service.ts:102-123 | Exactly one task is appended and nothing else changes. It has the given fields, status TODO, the user as owner, the user's org, and `NextPosition` of the old table. |
| Tasks.TasksService.Update | api/src/tasks/tasks.service.ts:128-140 | A task not visible gives null and no change. Otherwise only that task is replaced by its patched copy, which is returned. |
| Tasks.TasksService.Delete | api/src/tasks/tasks.service.ts:145-153 | True iff the task was visible. If not, nothing changes. If so, exactly that task is removed, the others stay in order, and no stored task keeps the id. |
| TaskOrder.TaskLeTotal | api/src/tasks/tasks.service.ts:67 | The (org id, position) order is total. |
| TaskOrder.TaskLeTransitive | api/src/tasks/tasks.service.ts:67 | The (org id, position) order is transitive. |
| TaskOrder.Sort | api/src/tasks/tasks.service.ts:67-69 | The result is sorted by (org id, position) and is a permutation of the input. |
| Audit.NewRecord | api/src/audit/audit.service.ts:40-48 | One record per entry. User id and org id come from the user, or both are null without one. `entityId` is the resource id or "N/A". Action, resource, allowed, address and changes are copied; the key and timestamp are the given ones. |
| Audit.AuditScope | api/src/audit/audit.service.ts:84-99 | The first id is the user's org. Membership: own org, or (org found, root, and OWNER) one of its children. An org-lookup miss still gives `[user.orgId]`. |
| Audit.ScopeFilter | api/src/audit/audit.service.ts:61 | Exactly the records whose org is in the scope. Oldest-first order is kept. |
| Audit.Reverse | api/src/audit/audit.service.ts:62 | The rows in reverse table order: element i is the element at `len - 1 - i`. |
| Audit.Take | api/src/audit/audit.service.ts:63 | A positive limit keeps the first `min(n, len)` rows. A limit ≤ 0 keeps all. The result is always a prefix. |
| Audit.FindUser | api/src/audit/audit.service.ts:60 | The left join: the user row with the record's user id, if any. |
| Audit.Project | api/src/audit/audit.service.ts:68-81 | The record's public fields are copied. `user` is `{id, email, role}` of the joined row, or null. No password hash and no `changes` appear. |
| Audit.ProjectAll | api/src/audit/audit.service.ts:68-81 | The `map`: the same number of rows, row i the projection of record i. |
| Audit.Listed | api/src/audit/audit.service.ts:56-65 | The query result: at most `limit` records for a positive limit, each a stored record in scope. |
| Audit.Listing | api/src/audit/audit.service.ts:54-82 | At most `limit` rows for a positive limit. Each row is the projection of a stored in-scope record, so its org id lies in the audit scope. |
| Audit.ListingNewestFirst | api/src/audit/audit.service.ts:62 | Over records stored oldest-first, the listing is strictly newest-first. |
| Audit.ListingComplete | api/src/audit/audit.service.ts:56-65 | With a limit ≤ 0, or no more in-scope records than the limit, every in-scope record is listed. |
| Audit.ListingKeepsNewest | api/src/audit/audit.service.ts:62-63 | Over records stored oldest-first with a positive limit: if an in-scope record is not listed, exactly `limit` rows came back and every one is newer than it. |
| Audit.TakeNewestKeepsNewest | api/src/audit/audit.service.ts:62-63 | The same on the scope's rows: an oldest-first list, reversed and cut to a positive limit, that misses one of its rows kept exactly `limit` rows, all newer than it. |
| Audit.LoggedRecordListedFirst | api/src/audit/audit.service.ts:39-65 | After logging an in-scope record, the listing starts with that record's projection. |
| Audit.AuditScopeVersusTaskScope | api/src/audit/audit.service.ts:84-99 | When the user's org is found, the audit scope equals the task scope. On a miss, the audit scope is `[user.orgId]` and the task scope is empty. |
| Audit.OwnOrgOnly | api/src/audit/audit.service.ts:86-98 | A non-OWNER, an OWNER of a child org, or a caller whose org is not in the table, sees only rows of its own org. |
| Audit.AuditService.Log | api/src/audit/audit.service.ts:39-52 | Exactly one record is appended, built by `NewRecord` at the current clock. Earlier records are unchanged and the clock advances. |
| Audit.AuditService.GetOrgScope | api/src/audit/audit.service.ts:84-99 | The lookup of the user's org, then of its children for the OWNER of a root, builds exactly `AuditScope` of the org table. |
| Audit.AuditService.FindAll | api/src/audit/audit.service.ts:54-82 | The result is `Listing` of the current store. It is strictly newest-first, at most `limit` rows for a positive limit, and each row is in scope. |
| AuditInterceptor.ResourceOf | api/src/audit/audit.interceptor.ts:67-68 | The first non-empty segment, or the second after a leading `api`, or "unknown" when that segment is missing. |
| AuditInterceptor.ExtractResource | api/src/audit/audit.interceptor.ts:63-69 | The resource is non-empty and contains no `/`. |
| AuditInterceptor.ExtractResourceOfJoin | api/src/audit/audit.interceptor.ts:65 | For a path joined from slash-free pieces, splitting recovers the pieces, so the resource is read off the non-empty ones. |
| AuditInterceptor.ExtractResourceApiPath | api/src/audit/audit.interceptor.ts:64-68 | `/api/tasks/:id` gives "tasks". |
| AuditInterceptor.ExtractResourcePlainPath | api/src/audit/audit.interceptor.ts:63-69 | `/audit-log` gives "audit-log". |
| AuditInterceptor.ExtractResourceUnknown | api/src/audit/audit.interceptor.ts:68 | `/` and `/api` give "unknown". |
| AuditInterceptor.MapMethodToAction | api/src/audit/audit.interceptor.ts:71-85 | On the upper-cased method: CREATE iff POST; UPDATE iff PUT or PATCH; DELETE iff DELETE; READ for everything else, GET included. |
| AuditInterceptor.MapMethodCaseInsensitive | api/src/audit/audit.interceptor.ts:72 | The action does not depend on the letter case of the method. |
| AuditInterceptor.MapMethodExamples | api/src/audit/audit.interceptor.ts:71-85 | "post", "Get", "patch", "delete" and "OPTIONS" map to CREATE, READ, UPDATE, DELETE and READ. |
| AuditInterceptor.StatusOf | api/src/audit/audit.interceptor.ts:46 | `status` if truthy, else `statusCode` if truthy, else 500. Never 0. |
| AuditInterceptor.Allowed | api/src/audit/audit.interceptor.ts:33-47 | Success is allowed. An error is allowed iff its status is below 400, so a 4xx or 5xx (section 15 of RFC 9110) is denied. |
| AuditInterceptor.OutcomeExamples | api/src/audit/audit.interceptor.ts:46-47 | No status fields: denied (500). 403 and 404: denied. `status` 0 falls through to `statusCode` 302: allowed. |
| AuditInterceptor.ClientAddress | api/src/audit/audit.interceptor.ts:30 | `request.ip` when non-empty, else the connection's remote address. |
| AuditInterceptor.EntryFor | api/src/audit/audit.interceptor.ts:18-30 | The entry has the request user (or none), the mapped action, the route path's resource (the URL's without a route), `params.id`, the client address, and the outcome rule's `allowed`. |
| AuditInterceptor.Intercept | api/src/audit/audit.interceptor.ts:16-61 | Exactly one audit record is appended, for the entry of this request and outcome. The handler's value, or the same error, is passed on unchanged. |
| AuditApi.ParseLimit | api/src/audit/audit.controller.ts:29 | Absent, empty, unparsable or 0 gives 100. 1..500 passes through; larger values give 500. A negative value passes through. Never 0, never above 500. |
| AuditApi.ParseLimitOfNumber | api/src/audit/audit.controller.ts:29 | For a decimal numeral n: 1..500 gives n, above 500 gives 500, "0" gives 100. |
| AuditApi.ParseLimitOfNegative | api/src/audit/audit.controller.ts:29 | "-n" gives -n: there is no lower clamp. |
| AuditApi.ParseLimitSignedOrSpaced | api/src/audit/audit.controller.ts:29 | For 1 ≤ n ≤ 500, `+n` and n after leading white space give n. |
| AuditApi.ParseLimitExamples | api/src/audit/audit.controller.ts:29 | No limit, "" and "abc" give 100. |
| AuditApi.Admitted | api/src/audit/audit.controller.ts:24 | The route admits a user iff one is present and is not a VIEWER. |
| AuditApi.ListingBound | api/src/audit/audit.controller.ts:29-30 | A positive parsed limit lists at most 500 rows. A negative one lists every in-scope record, newest first. |
| AuditApi.AuditController.FindAll | api/src/audit/audit.controller.ts:25-31 | The rows are the service's listing for the parsed limit: newest first, and at most 500 unless the limit was negative. |
| AuthModule.ParseExpiry | api/src/auth/auth.module.ts:13-25 | Never negative. Any string not of the form digits-then-unit gives 86400. |
| AuthModule.MatchesDurationShape | api/src/auth/auth.module.ts:14 | A string matches `^(\d+)([smhd])$` iff it is a non-empty run of digits followed by one unit letter. |
| AuthModule.UnitSeconds | api/src/auth/auth.module.ts:17-23 | Each unit letter has a positive number of seconds. |
| AuthModule.UnitSecondsConsistent | api/src/auth/auth.module.ts:17-23 | The units agree: a minute is 60 seconds, an hour 60 minutes, a day 24 hours, which is the 86400-second default. |
| AuthModule.ParseExpiryMatched | api/src/auth/auth.module.ts:14-22 | Digits followed by s, m, h or d give the digits' value times 1, 60, 3600 or 86400. |
| AuthModule.ParseExpiryShow | api/src/auth/auth.module.ts:16-22 | The numeral of n followed by a unit gives n times the unit's seconds. |
| AuthModule.ParseExpiryFallbacks | api/src/auth/auth.module.ts:14-15 | "", "15", "2w", "-5m", "1dx" and "h" all give 86400. |
| AuthModule.ExpiresIn | api/src/auth/auth.module.ts:34 | A missing setting gives 86400; the result is never negative. |
| AuthModule.DefaultDurationIsOneDay | api/src/auth/auth.module.ts:34 | The default "1d" is 86400 seconds. |
| JsText.ParseInt | api/src/audit/audit.controller.ts:29 | `parseInt(s, 10)`: NaN iff, after leading white space and an optional sign, no digit follows. |
| JsText.ParseIntShow | api/src/audit/audit.controller.ts:29 | `parseInt` reads back the decimal numeral of n as n. |
| JsText.ParseIntShowNegative | api/src/audit/audit.controller.ts:29 | `parseInt` reads back "-" and the numeral of n as -n. |
| JsText.ParseIntOfNumeral | api/src/audit/audit.controller.ts:29 | `parseInt` of white space, an optional `+` or `-`, a digit run and anything not digit-led is the run's value, negated behind `-`. |
| JsText.TrimStartOfWhiteSpace | api/src/audit/audit.controller.ts:29 | Leading white space is dropped up to the first character that is not white space. |
| JsText.ParseIntShowPlus | api/src/audit/audit.controller.ts:29 | `parseInt` reads "+" and the numeral of n as n. |
| JsText.ParseIntShowAfterWhiteSpace | api/src/audit/audit.controller.ts:29 | `parseInt` reads the numeral of n after any leading white space as n. |
| JsText.ParseIntOfDigits | api/src/auth/auth.module.ts:16 | A digit run followed by anything not a digit parses to the run's value. |
| JsText.Split | api/src/audit/audit.interceptor.ts:65 | `split('/')` gives at least one piece and no piece contains the separator. |
| JsText.SplitJoin | api/src/audit/audit.interceptor.ts:65 | Splitting a join of separator-free pieces gives back the pieces. |
| JsText.JoinSplit | api/src/audit/audit.interceptor.ts:65 | Joining the pieces of a split with the separator gives the string back. |
| JsText.NonEmpty | api/src/audit/audit.interceptor.ts:65 | `filter(Boolean)` keeps only non-empty pieces, all from the input; every non-empty piece of the input is kept, and everything is kept when no piece is empty. |
| JsText.NonEmptyAppend | api/src/audit/audit.interceptor.ts:65 | Filtering a concatenation is the concatenation of the filtered parts, so the kept pieces stay in input order. |
| JsText.NonEmptyOne | api/src/audit/audit.interceptor.ts:65 | A single piece is kept iff it is non-empty. |
| JsText.ToUpperAscii | api/src/audit/audit.interceptor.ts:72 | `toUpperCase()` on ASCII: same length, and each character upper-cased on its own. |
| JsText.ToUpperIdempotent | api/src/audit/audit.interceptor.ts:72 | Upper-casing twice equals upper-casing once. |
| Dashboard.MergeFilters | dashboard/src/app/dashboard/task-store.service.ts:53 | Keys in the patch take the new values; every other key keeps the old one. |
| Dashboard.MergeFiltersIdempotent | dashboard/src/app/dashboard/task-store.service.ts:53 | Merging the same patch twice equals merging it once; the empty patch keeps the filters. |
| Dashboard.QueryFor | dashboard/src/app/dashboard/task-store.service.ts:40-43 | A filter is sent iff its string is non-empty, with that string as its value. |
| Dashboard.Move | dashboard/src/app/dashboard/task-store.service.ts:80 | The moved list keeps its length, holds the taken element at the target index, and is unchanged for a move in place. |
| Dashboard.MoveProperties | dashboard/src/app/dashboard/task-store.service.ts:80 | A move keeps the length and the multiset. The taken element lands at the target. Without it, the other elements are in their old order. |
| Dashboard.MoveInverse | dashboard/src/app/dashboard/task-store.service.ts:80 | Moving back from the target to the source undoes a move. |
| Dashboard.MoveItemInArray | dashboard/src/app/dashboard/task-store.service.ts:80 | The in-place shifting loop leaves the array equal to `Move` of its old contents. |
| Dashboard.PositionUpdate | dashboard/src/app/dashboard/task-store.service.ts:84 | The request updates the given task id, and its patch changes only the position. |
| Dashboard.ReorderUpdatesDraggedTask | dashboard/src/app/dashboard/task-store.service.ts:83-84 | After a move, the task at the target is the dragged one, so the update names it. |
| Dashboard.TaskStoreService.Load | dashboard/src/app/dashboard/task-store.service.ts:38-49 | Loading is set and one list request with the filter query is issued. The snapshot and filters are unchanged. |
| Dashboard.TaskStoreService.Loaded | dashboard/src/app/dashboard/task-store.service.ts:45-48 | The response becomes a fresh snapshot and loading ends. |
| Dashboard.TaskStoreService.SetFilters | dashboard/src/app/dashboard/task-store.service.ts:52-55 | The filters become the merge, then one reload request is issued with the new query. |
| Dashboard.TaskStoreService.Reorder | dashboard/src/app/dashboard/task-store.service.ts:76-85 | A drop in place changes nothing and sends nothing. Otherwise the new snapshot is a fresh array holding `Move` of the old list, the old snapshot is left intact, and exactly one position update is sent for the task now at the target index. |

## Left out

- **Framework wiring.** NestJS/TypeORM/Angular modules, dependency injection and decorators are described, not executed. Which `@Roles` metadata applies, the handler's or the class's, is modelled as explicit values.
- **Credentials and tokens.** JWT signing and verification, bcrypt and token storage are out of scope. The JWT guard appears only as "a request user is present or not".
- **UI and the dashboard's HTTP wrapper.** The login and dashboard components and `TaskService` (`dashboard/src/app/dashboard/task.service.ts`) are HTTP and UI code; they are outside this model.
- **Dashboard store `create`, `update` and `delete`** (`dashboard/src/app/dashboard/task-store.service.ts:58-73`). They forward to the HTTP service and reload on completion, which is rxjs plumbing. The model keeps only the requests issued by `load`, `setFilters` and `reorder`.
- **rxjs subscriptions.** A response is modelled as a separate `Loaded` call, not as a subscription callback.
- **`ParseUUIDPipe` and DTO validation.** They reject malformed ids and bodies before the handlers run. The model's handlers take any id.
- **Guard/interceptor ordering.** In NestJS, guards run before interceptors, so a `RolesGuard` denial on `/audit-log` is never audited. This ordering is not modelled; `Intercept` covers only requests that reach the handler.
- **Audit write failures.** `log` is not awaited, so a failed write does not affect the response. The model always appends.
- **Null-org writes.** A record without a user has a null `organizationId`, which the schema's non-null column (`api/src/entities/audit-log.entity.ts:38`) would reject. The model stores it as `None`.
- **The `create` race.** Two concurrent creates can read the same maximum. The model runs operations one at a time.
- **`changes` payload.** `JSON.stringify` of `changes` is opaque: the entry carries an optional string. The interceptor never sets `changes`.
- **Explicit `undefined` patch values.** A patch key that is present but `undefined` is modelled as absent.
- Tasks.ApplyPatch: an explicit null for `title`, `status` or `position` is not modelled. Those columns are NOT NULL (`position` is an `int` column with a default but no `nullable`), so saving such a patch fails with a database error; the model's patch always carries a value for them.
- RolesGuard.RoleOf: a request user always has a role in the model, so the `!user.role` part of the check is reached only through a missing user.
- **Number precision.** `parseInt` and timestamps use unbounded integers. Floating-point precision of huge digit strings and `Infinity` are not modelled.
- JsText.ToUpperAscii: upper-cases ASCII letters only. JavaScript's full Unicode case mapping is not modelled; HTTP method names are ASCII.
- Audit.AuditService.Log: `createdAt` is a strictly increasing counter. SQLite's timestamp has a coarser resolution, so real records can tie; the database's order among tied records is not modelled.
- Tasks.TasksService.FindAll: the order of tasks with equal (org id, position) is the database's choice. The contract states sortedness and the permutation, not an order among ties.
- Dashboard.MoveItemInArray: requires in-range indices. The clamping of out-of-range indices by Angular CDK's `moveItemInArray` is not modelled.
- **Task-to-organisation relation.** `task.organization` is modelled as a lookup of `organizationId` in the organisation table.
- **Seed scripts.** The seed's org/user layout appears only as the scenario in `OrgScope.RootAndChildScenario`.
- **A mocked test.** The integration test at `api/src/tasks/tasks.controller.spec.ts:216-224` mocks a `ForbiddenException` the real service never throws. The model follows the real path: a null result and a 404.
