/** The /tasks routes (tasks.controller.ts): the JWT guard, then the role
    guard with each route's role metadata, then the service; a missing or
    inaccessible task becomes one 404. */
module TasksApi {
  import opened Common
  import opened RolesGuard
  import opened OrgScope
  import opened TaskEntity
  import opened TaskOrder
  import opened Tasks

  datatype Route = ListTasks | GetTask | CreateTask | UpdateTask | DeleteTask

  /** Whether a route changes tasks. */
  predicate IsWrite(route: Route) {
    route.CreateTask? || route.UpdateTask? || route.DeleteTask?
  }

  /** The `@Roles(...)` metadata of each handler. */
  function RouteRoles(route: Route): (roles: seq<Role>)
    ensures roles != []
    ensures OWNER in roles && ADMIN in roles
    ensures VIEWER in roles <==> !IsWrite(route)
  {
    if IsWrite(route) then [OWNER, ADMIN] else [OWNER, ADMIN, VIEWER]
  }

  /** The `@HttpCode(...)` of each handler. */
  function SuccessStatus(route: Route): (code: int)
    ensures 200 <= code < 300
    ensures code == 201 <==> route.CreateTask?
    ensures code == 204 <==> route.DeleteTask?
  {
    match route
    case CreateTask => 201
    case DeleteTask => 204
    case _ => 200
  }

  datatype Body = TaskList(tasks: seq<Task>) | OneTask(task: Task) | NoBody

  datatype Response = Success(status: int, body: Body) | Failure(status: int, message: string)

  const Unauthorized: Response := Failure(401, "Unauthorized")
  const Forbidden: Response := Failure(403, "Forbidden resource")
  const NotFound: Response := Failure(404, NotFoundMessage)

  /** The guard chain: JwtAuthGuard rejects a request without a valid
      token (None), then RolesGuard checks the handler's roles. None means
      the request reaches the handler. */
  function Admit(route: Route, user: Option<RequestUser>): (rejection: Option<Response>)
    ensures user.None? ==> rejection == Some(Unauthorized)
    ensures user.Some? ==> (rejection.None? <==> user.value.role in RouteRoles(route))
    ensures user.Some? && rejection.Some? ==> rejection == Some(Forbidden)
  {
    if user.None? then Some(Unauthorized)
    else if CanActivate(Some(RouteRoles(route)), None, user) then None
    else Some(Forbidden)
  }

  /** The response of GET /tasks/:id for the given tables. */
  function GetResponse(orgs: seq<OrgReference>, tasks: seq<Task>, user: Option<RequestUser>, id: string): (resp: Response)
    ensures user.None? ==> resp == Unauthorized
    ensures user.Some? ==> resp != Forbidden
    ensures user.Some? ==> (resp == NotFound <==> Visible(orgs, tasks, user.value, id).None?)
    ensures user.Some? && Visible(orgs, tasks, user.value, id).Some? ==>
              resp == Success(200, OneTask(Visible(orgs, tasks, user.value, id).value))
  {
    if Admit(GetTask, user).Some? then Admit(GetTask, user).value
    else match Visible(orgs, tasks, user.value, id)
      case None => NotFound
      case Some(t) => Success(200, OneTask(t))
  }

  /** A task that does not exist and a task of an org outside the
      caller's scope get the same response. */
  lemma NotFoundIndistinguishable(orgs: seq<OrgReference>, tasks: seq<Task>, user: RequestUser,
                                  missingId: string, i: nat)
    requires UniqueOrgIds(orgs) && UniqueTaskIds(tasks) && i < |tasks|
    requires forall t :: t in tasks ==> t.id != missingId
    requires tasks[i].organizationId !in TaskScope(orgs, user).allowedOrgIds
    ensures GetResponse(orgs, tasks, Some(user), missingId) == GetResponse(orgs, tasks, Some(user), tasks[i].id)
    ensures GetResponse(orgs, tasks, Some(user), missingId).status == 404
  {
    GetOutsideScopeIsNone(orgs, tasks, user, i);
  }

  /** Any admitted caller fetching a stored task gets it exactly
      when it belongs to an org of the caller's listing scope. */
  lemma GetRespectsScope(orgs: seq<OrgReference>, tasks: seq<Task>, user: RequestUser, i: nat)
    requires UniqueOrgIds(orgs) && UniqueTaskIds(tasks) && i < |tasks|
    ensures GetResponse(orgs, tasks, Some(user), tasks[i].id) == Success(200, OneTask(tasks[i])) <==>
              tasks[i].organizationId in TaskScope(orgs, user).allowedOrgIds
    ensures tasks[i].organizationId !in TaskScope(orgs, user).allowedOrgIds ==>
              GetResponse(orgs, tasks, Some(user), tasks[i].id) == NotFound
  {
    ListAndGetAgree(orgs, tasks, user, i);
  }

  /** What each role may reach: a VIEWER only the two reads, OWNER and
      ADMIN every route; no token means 401 whatever the route. */
  lemma RouteAccess(route: Route, u: RequestUser)
    ensures u.role == VIEWER ==> (Admit(route, Some(u)) == Some(Forbidden) <==> IsWrite(route))
    ensures u.role != VIEWER ==> Admit(route, Some(u)) == None
    ensures Admit(route, None) == Some(Unauthorized)
  {
  }

  /** The controller over one service instance. */
  class TasksController {
    const service: TasksService

    ghost predicate Valid()
      reads this, service
    {
      service.Valid()
    }

    constructor (service: TasksService)
      requires service.Valid()
      ensures this.service == service && Valid()
    {
      this.service := service;
    }

    /** GET /tasks. */
    method FindAll(user: Option<RequestUser>, query: TasksQuery) returns (resp: Response)
      ensures Admit(ListTasks, user).Some? ==> resp == Admit(ListTasks, user).value
      ensures Admit(ListTasks, user).None? ==>
                && resp.Success? && resp.status == 200 && resp.body.TaskList?
                && Sorted(resp.body.tasks)
                && multiset(resp.body.tasks) ==
                   multiset(Matching(service.tasks, TaskScope(service.orgs, user.value).allowedOrgIds, query))
    {
      var rejection := Admit(ListTasks, user);
      if rejection.Some? {
        return rejection.value;
      }
      var tasks := service.FindAll(user.value, query);
      resp := Success(SuccessStatus(ListTasks), TaskList(tasks));
    }

    /** GET /tasks/:id. */
    method FindOne(user: Option<RequestUser>, id: string) returns (resp: Response)
      ensures resp == GetResponse(service.orgs, service.tasks, user, id)
    {
      var rejection := Admit(GetTask, user);
      if rejection.Some? {
        return rejection.value;
      }
      var task := service.FindOne(user.value, id);
      if task.None? {
        return NotFound;
      }
      resp := Success(SuccessStatus(GetTask), OneTask(task.value));
    }

    /** POST /tasks. `newId` is the key the database generates. */
    method Create(user: Option<RequestUser>, data: CreateTaskData, newId: string) returns (resp: Response)
      requires Valid()
      requires forall t :: t in service.tasks ==> t.id != newId
      modifies service
      ensures Valid() && service.orgs == old(service.orgs)
      ensures Admit(CreateTask, user).Some? ==>
                resp == Admit(CreateTask, user).value && service.tasks == old(service.tasks)
      ensures Admit(CreateTask, user).None? ==>
                && resp.Success? && resp.status == 201 && resp.body.OneTask?
                && service.tasks == old(service.tasks) + [resp.body.task]
                && resp.body.task.id == newId
                && resp.body.task.organizationId == user.value.orgId
                && resp.body.task.ownerId == user.value.userId
    {
      var rejection := Admit(CreateTask, user);
      if rejection.Some? {
        return rejection.value;
      }
      var task := service.Create(user.value, data, newId);
      resp := Success(SuccessStatus(CreateTask), OneTask(task));
    }

    /** PUT /tasks/:id. */
    method Update(user: Option<RequestUser>, id: string, data: TaskPatch) returns (resp: Response)
      requires Valid()
      modifies service
      ensures Valid() && service.orgs == old(service.orgs)
      ensures Admit(UpdateTask, user).Some? ==>
                resp == Admit(UpdateTask, user).value && service.tasks == old(service.tasks)
      ensures Admit(UpdateTask, user).None? ==>
                match old(Visible(service.orgs, service.tasks, user.value, id))
                case None => resp == NotFound && service.tasks == old(service.tasks)
                case Some(t) =>
                  var i := old(FindTaskIndex(service.tasks, id)).value;
                  && resp == Success(200, OneTask(ApplyPatch(t, data)))
                  && service.tasks == old(service.tasks)[i := ApplyPatch(t, data)]
    {
      var rejection := Admit(UpdateTask, user);
      if rejection.Some? {
        return rejection.value;
      }
      var task := service.Update(user.value, id, data);
      if task.None? {
        return NotFound;
      }
      resp := Success(SuccessStatus(UpdateTask), OneTask(task.value));
    }

    /** DELETE /tasks/:id. */
    method Delete(user: Option<RequestUser>, id: string) returns (resp: Response)
      requires Valid()
      modifies service
      ensures Valid() && service.orgs == old(service.orgs)
      ensures Admit(DeleteTask, user).Some? ==>
                resp == Admit(DeleteTask, user).value && service.tasks == old(service.tasks)
      ensures Admit(DeleteTask, user).None? ==>
                match old(Visible(service.orgs, service.tasks, user.value, id))
                case None => resp == NotFound && service.tasks == old(service.tasks)
                case Some(_) =>
                  && resp == Success(204, NoBody)
                  && forall t :: t in service.tasks <==> t in old(service.tasks) && t.id != id
    {
      var rejection := Admit(DeleteTask, user);
      if rejection.Some? {
        return rejection.value;
      }
      var deleted := service.Delete(user.value, id);
      if !deleted {
        return NotFound;
      }
      resp := Success(SuccessStatus(DeleteTask), NoBody);
    }
  }

  /** The request scenarios of the controller's integration suite: without
      a token every route is 401; a VIEWER lists but may not write; an
      ADMIN lists and creates. */
  lemma IntegrationScenarios(viewer: RequestUser, admin: RequestUser)
    requires viewer.role == VIEWER && admin.role == ADMIN
    ensures forall r :: Admit(r, None) == Some(Unauthorized)
    ensures Admit(ListTasks, Some(viewer)) == None
    ensures Admit(CreateTask, Some(viewer)) == Some(Forbidden)
    ensures Admit(UpdateTask, Some(viewer)) == Some(Forbidden)
    ensures Admit(DeleteTask, Some(viewer)) == Some(Forbidden)
    ensures Admit(ListTasks, Some(admin)) == None && Admit(CreateTask, Some(admin)) == None
    ensures SuccessStatus(CreateTask) == 201
  {
  }
}
