/** The org-scoped task service (tasks.service.ts) over its two tables,
    organizations and tasks. Rows are kept in storage order; SQL queries are
    written as filters and sorts over them. */
module Tasks {
  import opened Common
  import opened OrgScope
  import opened TaskEntity
  import opened TaskOrder

  /** The body of a create request. */
  datatype CreateTaskData = CreateTaskData(
    title: string,
    description: Option<string>,
    category: Option<TaskCategory>)

  /** The body of an update request: the fields present in it. The two
      nullable columns can also be sent as an explicit null, which clears
      them: `Some(None)`. */
  datatype TaskPatch = TaskPatch(
    title: Option<string>,
    description: Option<Option<string>>,
    status: Option<TaskStatus>,
    category: Option<Option<TaskCategory>>,
    position: Option<int>)

  /** The list filters. */
  datatype TasksQuery = TasksQuery(status: Option<TaskStatus>, category: Option<TaskCategory>)

  /** The message of every not-found/denied response. */
  const NotFoundMessage: string := "Task not found or access denied"

  // ---------------------------------------------------------------------
  // Table lookups

  /** Primary keys of the organizations table are unique. */
  predicate UniqueOrgIds(orgs: seq<OrgReference>) {
    forall i, j :: 0 <= i < j < |orgs| ==> orgs[i].id != orgs[j].id
  }

  /** Primary keys of the tasks table are unique. */
  predicate UniqueTaskIds(tasks: seq<Task>) {
    forall i, j :: 0 <= i < j < |tasks| ==> tasks[i].id != tasks[j].id
  }

  /** `orgRepo.findOne({ where: { id } })`. */
  function FindOrg(orgs: seq<OrgReference>, id: string): (r: Option<OrgReference>)
    ensures r.Some? ==> r.value in orgs && r.value.id == id
    ensures r.None? <==> forall o :: o in orgs ==> o.id != id
  {
    if orgs == [] then None
    else if orgs[0].id == id then Some(orgs[0])
    else FindOrg(orgs[1..], id)
  }

  /** With unique keys, the org found is the only one with that id. */
  lemma FindOrgUnique(orgs: seq<OrgReference>, o: OrgReference)
    requires UniqueOrgIds(orgs) && o in orgs
    ensures FindOrg(orgs, o.id) == Some(o)
  {
    var found := FindOrg(orgs, o.id).value;
    var i :| 0 <= i < |orgs| && orgs[i] == o;
    var j :| 0 <= j < |orgs| && orgs[j] == found;
    assert i == j;
  }

  /** `orgRepo.find({ where: { parentId } })`, in storage order. */
  function ChildrenOf(orgs: seq<OrgReference>, parentId: string): (children: seq<OrgReference>)
    ensures forall c :: c in children <==> c in orgs && c.parentId == Some(parentId)
  {
    if orgs == [] then []
    else (if orgs[0].parentId == Some(parentId) then [orgs[0]] else []) + ChildrenOf(orgs[1..], parentId)
  }

  /** The index of the task row with this id, if any. */
  function FindTaskIndex(tasks: seq<Task>, id: string): (r: Option<nat>)
    ensures r.Some? ==> r.value < |tasks| && tasks[r.value].id == id
    ensures r.None? <==> forall t :: t in tasks ==> t.id != id
  {
    if tasks == [] then None
    else if tasks[0].id == id then Some(0)
    else match FindTaskIndex(tasks[1..], id)
      case None => None
      case Some(k) => Some(k + 1)
  }

  /** With unique keys, a stored task is found at its own index. */
  lemma FindTaskUnique(tasks: seq<Task>, i: nat)
    requires UniqueTaskIds(tasks) && i < |tasks|
    ensures FindTaskIndex(tasks, tasks[i].id) == Some(i)
  {
  }

  lemma InIds(orgs: seq<OrgReference>, id: string)
    ensures id in Ids(orgs) <==> exists o :: o in orgs && o.id == id
  {
    if id in Ids(orgs) {
      var k :| 0 <= k < |orgs| && Ids(orgs)[k] == id;
      assert orgs[k] in orgs;
    }
  }

  // ---------------------------------------------------------------------
  // Specification functions of the service's queries

  /** getOrgScope: fails closed (nothing allowed) when the caller's org is
      not in the table; children are looked up for a root org only. */
  function TaskScope(orgs: seq<OrgReference>, user: RequestUser): (scope: OrgScopeResult)
    ensures FindOrg(orgs, user.orgId).None? ==> scope == OrgScopeResult([], false, false)
    ensures FindOrg(orgs, user.orgId).Some? && FindOrg(orgs, user.orgId).value.parentId.Some? ==>
              scope == ScopeOf(user, FindOrg(orgs, user.orgId).value, [])
    ensures forall id :: id in scope.allowedOrgIds <==>
              && FindOrg(orgs, user.orgId).Some?
              && (|| id == user.orgId
                  || (&& FindOrg(orgs, user.orgId).value.parentId == None
                      && user.role == OWNER
                      && exists o :: o in orgs && o.id == id && o.parentId == Some(user.orgId)))
  {
    match FindOrg(orgs, user.orgId)
    case None => OrgScopeResult([], false, false)
    case Some(userOrg) =>
      if userOrg.parentId.Some? then ScopeOf(user, userOrg, [])
      else
        var childOrgs := ChildrenOf(orgs, userOrg.id);
        assert forall id :: id in Ids(childOrgs) <==> exists o :: o in orgs && o.id == id && o.parentId == Some(user.orgId) by {
          forall id ensures id in Ids(childOrgs) <==> exists o :: o in childOrgs && o.id == id {
            InIds(childOrgs, id);
          }
        }
        ScopeOf(user, userOrg, childOrgs)
  }

  /** A task passes the list filters. */
  predicate Matches(t: Task, allowedOrgIds: seq<string>, query: TasksQuery) {
    && t.organizationId in allowedOrgIds
    && (query.status.Some? ==> t.status == query.status.value)
    && (query.category.Some? ==> t.category == Some(query.category.value))
  }

  /** The rows of the list query's WHERE clause, in storage order. */
  function Matching(tasks: seq<Task>, allowedOrgIds: seq<string>, query: TasksQuery): (r: seq<Task>)
    ensures forall t :: t in r <==> t in tasks && Matches(t, allowedOrgIds, query)
    ensures multiset(r) <= multiset(tasks)
  {
    if tasks == [] then []
    else
      assert tasks == [tasks[0]] + tasks[1..];
      (if Matches(tasks[0], allowedOrgIds, query) then [tasks[0]] else [])
        + Matching(tasks[1..], allowedOrgIds, query)
  }

  /** findOne: the stored task, or None when the id is missing, the
      caller's org is missing, or canAccessOrg denies the task's org. */
  function Visible(orgs: seq<OrgReference>, tasks: seq<Task>, user: RequestUser, taskId: string): (r: Option<Task>)
    ensures r.Some? ==> FindTaskIndex(tasks, taskId).Some? && r.value == tasks[FindTaskIndex(tasks, taskId).value]
    ensures r.None? <==>
              || FindTaskIndex(tasks, taskId).None?
              || FindOrg(orgs, user.orgId).None?
              || !CanAccessOrg(user, tasks[FindTaskIndex(tasks, taskId).value].organizationId,
                               FindOrg(orgs, user.orgId).value,
                               FindOrg(orgs, tasks[FindTaskIndex(tasks, taskId).value].organizationId))
  {
    match FindTaskIndex(tasks, taskId)
    case None => None
    case Some(i) =>
      var task := tasks[i];
      match FindOrg(orgs, user.orgId)
      case None => None
      case Some(userOrg) =>
        if CanAccessOrg(user, task.organizationId, userOrg, FindOrg(orgs, task.organizationId)) then Some(task)
        else None
  }

  /** The largest position among the org's tasks (`MAX(position)`), None
      when the org has no task. */
  function MaxPosition(tasks: seq<Task>, orgId: string): (m: Option<int>)
    ensures m.None? <==> forall t :: t in tasks ==> t.organizationId != orgId
    ensures m.Some? ==> forall t :: t in tasks && t.organizationId == orgId ==> t.position <= m.value
    ensures m.Some? ==> exists t :: t in tasks && t.organizationId == orgId && t.position == m.value
  {
    if tasks == [] then None
    else
      var rest := MaxPosition(tasks[1..], orgId);
      assert forall t :: t in tasks <==> t == tasks[0] || t in tasks[1..];
      if tasks[0].organizationId != orgId then rest
      else match rest
        case None => Some(tasks[0].position)
        case Some(p) => Some(if tasks[0].position > p then tasks[0].position else p)
  }

  /** `(max ?? -1) + 1`: above every position in the org, 0 for an empty org. */
  function NextPosition(tasks: seq<Task>, orgId: string): (p: int)
    ensures (forall t :: t in tasks ==> t.organizationId != orgId) ==> p == 0
    ensures forall t :: t in tasks && t.organizationId == orgId ==> t.position < p
    ensures (exists t :: t in tasks && t.organizationId == orgId) ==>
              exists t :: t in tasks && t.organizationId == orgId && t.position == p - 1
  {
    match MaxPosition(tasks, orgId)
    case None => 0
    case Some(m) => m + 1
  }

  /** Object.assign(task, patch): present fields overwrite, the rest stay;
      an explicit null clears a nullable field. */
  function ApplyPatch(t: Task, p: TaskPatch): (r: Task)
    ensures r.id == t.id && r.ownerId == t.ownerId && r.organizationId == t.organizationId
    ensures p.title.Some? ==> r.title == p.title.value
    ensures p.title.None? ==> r.title == t.title
    ensures p.description.Some? ==> r.description == p.description.value
    ensures p.description == Some(None) ==> r.description.None?
    ensures p.description.None? ==> r.description == t.description
    ensures p.status.Some? ==> r.status == p.status.value
    ensures p.status.None? ==> r.status == t.status
    ensures p.category.Some? ==> r.category == p.category.value
    ensures p.category == Some(None) ==> r.category.None?
    ensures p.category.None? ==> r.category == t.category
    ensures p.position.Some? ==> r.position == p.position.value
    ensures p.position.None? ==> r.position == t.position
  {
    t.(title := p.title.GetOr(t.title),
       description := p.description.GetOr(t.description),
       status := p.status.GetOr(t.status),
       category := p.category.GetOr(t.category),
       position := p.position.GetOr(t.position))
  }

  /** Applying the same patch twice is applying it once; the empty patch
      changes nothing. */
  lemma ApplyPatchIdempotent(t: Task, p: TaskPatch)
    ensures ApplyPatch(ApplyPatch(t, p), p) == ApplyPatch(t, p)
    ensures ApplyPatch(t, TaskPatch(None, None, None, None, None)) == t
  {
  }

  // ---------------------------------------------------------------------
  // Properties relating the queries

  /** Listing and fetching agree: a stored task is in the caller's listing
      scope exactly when findOne hands it out. Both fail closed when the
      caller's org is missing. */
  lemma ListAndGetAgree(orgs: seq<OrgReference>, tasks: seq<Task>, user: RequestUser, i: nat)
    requires UniqueOrgIds(orgs) && UniqueTaskIds(tasks) && i < |tasks|
    ensures tasks[i].organizationId in TaskScope(orgs, user).allowedOrgIds <==>
              Visible(orgs, tasks, user, tasks[i].id) == Some(tasks[i])
  {
    var t := tasks[i];
    FindTaskUnique(tasks, i);
    match FindOrg(orgs, user.orgId)
    case None =>
    case Some(userOrg) =>
      if t.organizationId != user.orgId && userOrg.parentId == None && user.role == OWNER {
        if exists o :: o in orgs && o.id == t.organizationId && o.parentId == Some(user.orgId) {
          var o :| o in orgs && o.id == t.organizationId && o.parentId == Some(user.orgId);
          FindOrgUnique(orgs, o);
        }
      }
  }

  /** Within one caller's listing, missing and denied are the same: findOne
      yields None for an id that is not stored and for a stored task of an
      org outside the scope. */
  lemma GetOutsideScopeIsNone(orgs: seq<OrgReference>, tasks: seq<Task>, user: RequestUser, i: nat)
    requires UniqueOrgIds(orgs) && UniqueTaskIds(tasks) && i < |tasks|
    requires tasks[i].organizationId !in TaskScope(orgs, user).allowedOrgIds
    ensures Visible(orgs, tasks, user, tasks[i].id) == None
  {
    ListAndGetAgree(orgs, tasks, user, i);
  }

  lemma SameElements(a: seq<Task>, b: seq<Task>)
    requires multiset(a) == multiset(b)
    ensures forall t :: t in a <==> t in b
  {
    forall t ensures t in a <==> t in b {
      assert t in a <==> t in multiset(a);
      assert t in b <==> t in multiset(b);
    }
  }

  /** Cutting out the row at `i` removes exactly the rows with its id. */
  lemma RemoveByIndex(tasks: seq<Task>, i: nat)
    requires UniqueTaskIds(tasks) && i < |tasks|
    ensures UniqueTaskIds(tasks[..i] + tasks[i + 1..])
    ensures forall t :: t in tasks[..i] + tasks[i + 1..] <==> t in tasks && t.id != tasks[i].id
  {
    var rest := tasks[..i] + tasks[i + 1..];
    assert forall k :: 0 <= k < |rest| ==> rest[k] == if k < i then tasks[k] else tasks[k + 1];
    forall t ensures t in rest <==> t in tasks && t.id != tasks[i].id {
      if t in tasks && t.id != tasks[i].id {
        var k :| 0 <= k < |tasks| && tasks[k] == t;
        if k < i { assert rest[k] == t; } else { assert rest[k - 1] == t; }
      }
    }
  }

  /** The service over its two tables. */
  class TasksService {
    var orgs: seq<OrgReference>
    var tasks: seq<Task>

    /** The tables' primary keys. */
    ghost predicate Valid()
      reads this
    {
      UniqueOrgIds(orgs) && UniqueTaskIds(tasks)
    }

    constructor (orgs: seq<OrgReference>, tasks: seq<Task>)
      requires UniqueOrgIds(orgs) && UniqueTaskIds(tasks)
      ensures Valid() && this.orgs == orgs && this.tasks == tasks
    {
      this.orgs := orgs;
      this.tasks := tasks;
    }

    /** getOrgScope. */
    method GetOrgScope(user: RequestUser) returns (scope: OrgScopeResult)
      ensures scope == TaskScope(orgs, user)
    {
      var userOrg := FindOrg(orgs, user.orgId);
      if userOrg.None? {
        return OrgScopeResult([], false, false);
      }
      var childOrgs: seq<OrgReference> := [];
      if userOrg.value.parentId == None {
        childOrgs := ChildrenOf(orgs, userOrg.value.id);
      }
      scope := ResolveOrgScope(user, userOrg.value, childOrgs);
    }

    /** findAll: exactly the in-scope tasks that pass the filters, ordered
        by org id and then position. */
    method FindAll(user: RequestUser, query: TasksQuery) returns (result: seq<Task>)
      ensures Sorted(result)
      ensures multiset(result) == multiset(Matching(tasks, TaskScope(orgs, user).allowedOrgIds, query))
      ensures forall t :: t in result <==> t in tasks && Matches(t, TaskScope(orgs, user).allowedOrgIds, query)
    {
      var scope := GetOrgScope(user);
      var rows := Matching(tasks, scope.allowedOrgIds, query);
      result := Sort(rows);
      SameElements(result, rows);
    }

    /** findOne. */
    method FindOne(user: RequestUser, taskId: string) returns (r: Option<Task>)
      ensures r == Visible(orgs, tasks, user, taskId)
    {
      var i := FindTaskIndex(tasks, taskId);
      if i.None? {
        return None;
      }
      var task := tasks[i.value];
      var userOrg := FindOrg(orgs, user.orgId);
      if userOrg.None? {
        return None;
      }
      var hasAccess := CanAccessOrg(user, task.organizationId, userOrg.value, FindOrg(orgs, task.organizationId));
      if !hasAccess {
        return None;
      }
      r := Some(task);
    }

    /** create: a new task in the caller's org, owned by the caller, behind
        every existing task of that org. `newId` is the key the database
        generates. */
    method Create(user: RequestUser, data: CreateTaskData, newId: string) returns (task: Task)
      requires Valid()
      requires forall t :: t in tasks ==> t.id != newId
      modifies this
      ensures Valid() && orgs == old(orgs)
      ensures tasks == old(tasks) + [task]
      ensures task == Task(newId, data.title, data.description, DefaultStatus, data.category,
                           NextPosition(old(tasks), user.orgId), user.userId, user.orgId)
    {
      var position := NextPosition(tasks, user.orgId);
      task := Task(newId, data.title, data.description, DefaultStatus, data.category,
                   position, user.userId, user.orgId);
      tasks := tasks + [task];
    }

    /** update: gated by findOne; overwrites the patch's fields in place. */
    method Update(user: RequestUser, taskId: string, data: TaskPatch) returns (r: Option<Task>)
      requires Valid()
      modifies this
      ensures Valid() && orgs == old(orgs)
      ensures old(Visible(orgs, tasks, user, taskId)).None? ==> r == None && tasks == old(tasks)
      ensures old(Visible(orgs, tasks, user, taskId)).Some? ==>
                var i := old(FindTaskIndex(tasks, taskId)).value;
                && r == Some(ApplyPatch(old(tasks)[i], data))
                && tasks == old(tasks)[i := r.value]
    {
      var found := FindOne(user, taskId);
      if found.None? {
        return None;
      }
      var i := FindTaskIndex(tasks, taskId).value;
      var updated := ApplyPatch(found.value, data);
      tasks := tasks[i := updated];
      r := Some(updated);
    }

    /** delete: gated by findOne; removes that one row. */
    method Delete(user: RequestUser, taskId: string) returns (deleted: bool)
      requires Valid()
      modifies this
      ensures Valid() && orgs == old(orgs)
      ensures deleted <==> old(Visible(orgs, tasks, user, taskId)).Some?
      ensures !deleted ==> tasks == old(tasks)
      ensures deleted ==>
                var i := old(FindTaskIndex(tasks, taskId)).value;
                tasks == old(tasks)[..i] + old(tasks)[i + 1..]
      ensures deleted ==> forall t :: t in tasks <==> t in old(tasks) && t.id != taskId
    {
      var found := FindOne(user, taskId);
      if found.None? {
        return false;
      }
      var i := FindTaskIndex(tasks, taskId).value;
      ghost var before := tasks;
      tasks := tasks[..i] + tasks[i + 1..];
      deleted := true;
      RemoveByIndex(before, i);
    }
  }
}
