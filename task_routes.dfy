/** The `/tasks` router: the task schema, the owner-or-assignee rule, the
    conjunctive query filter, and the create, list, update and delete
    handlers. */
module TaskRoutes {
  import opened Wrappers
  import opened Text
  import opened Entities
  import opened Store

  /** A request body as received: each field absent, a string, or another JSON value. */
  datatype TaskBody = TaskBody(title: Field, description: Field, status: Field,
                               projectId: Field, assignedUserId: Field)

  /** A body that passed `TaskSchema`. */
  datatype TaskInput = TaskInput(title: string, description: string, status: TaskStatus,
                                 projectId: Id, assignedUserId: Id)

  /** A body that passed `TaskSchema.partial()`: each field absent or valid. */
  datatype TaskPatch = TaskPatch(title: Option<string>, description: Option<string>, status: Option<TaskStatus>,
                                 projectId: Option<Id>, assignedUserId: Option<Id>)

  /** `z.string().min(2)`, which compares the JavaScript length in UTF-16 code units. */
  predicate ValidTitle(s: string) {
    Utf16Length(s) >= 2
  }

  /** `TaskSchema.parse(body)`. */
  function ParseTask(b: TaskBody): (r: Option<TaskInput>)
    ensures r.Some? <==>
      && b.title.JsonString? && Utf16Length(b.title.text) >= 2
      && b.description.JsonString?
      && b.status.JsonString? && b.status.text in {"TODO", "IN_PROGRESS", "DONE"}
      && b.projectId.JsonString? && IsUuid(b.projectId.text)
      && b.assignedUserId.JsonString? && IsUuid(b.assignedUserId.text)
    ensures r.Some? ==>
      && b.title == JsonString(r.value.title)
      && b.description == JsonString(r.value.description)
      && b.status == JsonString(TaskStatusName(r.value.status))
      && b.projectId == JsonString(r.value.projectId)
      && b.assignedUserId == JsonString(r.value.assignedUserId)
  {
    match (b.title, b.description, b.status, b.projectId, b.assignedUserId)
    case (JsonString(title), JsonString(description), JsonString(status), JsonString(pid), JsonString(uid)) =>
      var st := ParseTaskStatus(status);
      if ValidTitle(title) && st.Some? && IsUuid(pid) && IsUuid(uid)
      then Some(TaskInput(title, description, st.value, pid, uid))
      else None
    case _ => None
  }

  /** `TaskSchema.partial().parse(body)`. */
  function ParseTaskPatch(b: TaskBody): (r: Option<TaskPatch>)
    ensures r.Some? <==>
      && !b.title.OtherJson? && !b.description.OtherJson? && !b.status.OtherJson?
      && !b.projectId.OtherJson? && !b.assignedUserId.OtherJson?
      && (b.title.JsonString? ==> Utf16Length(b.title.text) >= 2)
      && (b.status.JsonString? ==> b.status.text in {"TODO", "IN_PROGRESS", "DONE"})
      && (b.projectId.JsonString? ==> IsUuid(b.projectId.text))
      && (b.assignedUserId.JsonString? ==> IsUuid(b.assignedUserId.text))
    ensures r.Some? ==>
      && r.value.title == StringOf(b.title)
      && r.value.description == StringOf(b.description)
      && (r.value.status.Some? <==> b.status.JsonString?)
      && (r.value.status.Some? ==> TaskStatusName(r.value.status.value) == b.status.text)
      && r.value.projectId == StringOf(b.projectId)
      && r.value.assignedUserId == StringOf(b.assignedUserId)
  {
    var status := if b.status.JsonString? then ParseTaskStatus(b.status.text) else None;
    if && !b.title.OtherJson? && !b.description.OtherJson? && !b.status.OtherJson?
       && !b.projectId.OtherJson? && !b.assignedUserId.OtherJson?
       && (b.title.JsonString? ==> ValidTitle(b.title.text))
       && (b.status.JsonString? ==> status.Some?)
       && (b.projectId.JsonString? ==> IsUuid(b.projectId.text))
       && (b.assignedUserId.JsonString? ==> IsUuid(b.assignedUserId.text))
    then Some(TaskPatch(StringOf(b.title), StringOf(b.description), status, StringOf(b.projectId), StringOf(b.assignedUserId)))
    else None
  }

  /** A body the full schema accepts is accepted by the partial schema too,
      and as a patch it overwrites every writable field with the input's. */
  lemma FullBodyIsPatch(b: TaskBody, t: Task)
    requires ParseTask(b).Some?
    ensures ParseTaskPatch(b).Some?
    ensures var i := ParseTask(b).value;
      ApplyTaskPatch(t, ParseTaskPatch(b).value)
        == Task(t.id, i.title, i.description, i.status, i.projectId, i.assignedUserId, t.createdAt)
  {
  }

  /** `prisma.task.update({ data })`: the fields present in the patch are
      overwritten, the others and the id and creation time are kept. */
  function ApplyTaskPatch(t: Task, p: TaskPatch): (r: Task)
    ensures r.id == t.id && r.createdAt == t.createdAt
    ensures r.title == p.title.GetOr(t.title) && r.description == p.description.GetOr(t.description)
    ensures r.status == p.status.GetOr(t.status)
    ensures r.projectId == p.projectId.GetOr(t.projectId)
    ensures r.assignedUserId == p.assignedUserId.GetOr(t.assignedUserId)
  {
    Task(t.id, p.title.GetOr(t.title), p.description.GetOr(t.description), p.status.GetOr(t.status),
         p.projectId.GetOr(t.projectId), p.assignedUserId.GetOr(t.assignedUserId), t.createdAt)
  }

  /** An empty patch changes nothing, and applying a patch twice is applying it once. */
  lemma PatchLaws(t: Task, p: TaskPatch)
    ensures ApplyTaskPatch(t, TaskPatch(None, None, None, None, None)) == t
    ensures ApplyTaskPatch(ApplyTaskPatch(t, p), p) == ApplyTaskPatch(t, p)
  {
  }

  /** Who may update a task: the project's owner, or the task's assignee. */
  predicate MayUpdate(caller: Id, t: Task, p: Project) {
    p.userId == caller || t.assignedUserId == caller
  }

  /** Who may delete a task, or create one in a project: the project's owner only. */
  predicate MayDelete(caller: Id, p: Project) {
    p.userId == caller
  }

  /** The owner may do anything to the project's tasks; an assignee who is
      not the owner may update a task but never delete it; nobody else may
      do either. */
  lemma Policy(caller: Id, t: Task, p: Project)
    ensures p.userId == caller ==> MayUpdate(caller, t, p) && MayDelete(caller, p)
    ensures t.assignedUserId == caller && p.userId != caller ==> MayUpdate(caller, t, p) && !MayDelete(caller, p)
    ensures MayDelete(caller, p) ==> MayUpdate(caller, t, p)
    ensures p.userId != caller && t.assignedUserId != caller ==> !MayUpdate(caller, t, p) && !MayDelete(caller, p)
  {
  }

  /** The row `prisma.task.create({ data })` inserts. */
  function NewTask(id: Id, i: TaskInput, now: int): Task {
    Task(id, i.title, i.description, i.status, i.projectId, i.assignedUserId, now)
  }

  /** POST /tasks. The database supplies the fresh `newId` and the creation time `now`. */
  method Create(db: Db, caller: Id, body: TaskBody, newId: Id, now: int) returns (r: Response<Task>)
    requires db.Valid() && newId !in db.tasks
    modifies db
    ensures db.Valid()
    ensures ParseTask(body).None? ==> r.BadRequest?
    ensures ParseTask(body).Some? ==>
      var input := ParseTask(body).value;
      var access := ProjectAccess(old(db.projects), input.projectId, caller);
      && (access == Missing ==> r.NotFound?)
      && (access == Denied ==> r.Forbidden?)
      && (access == Granted && input.assignedUserId !in old(db.users) ==> r.ServerError?)
      && (access == Granted && input.assignedUserId in old(db.users) ==>
            r == Ok(NewTask(newId, input, now)) && db.tasks == old(db.tasks)[newId := r.body])
    ensures !r.Ok? ==> db.tasks == old(db.tasks)
    ensures db.users == old(db.users) && db.projects == old(db.projects)
  {
    var input := ParseTask(body);
    if input.None? {
      return BadRequest;
    }
    var access := ProjectAccess(db.projects, input.value.projectId, caller);
    if !access.Granted? {
      return Refusal(access);
    }
    if input.value.assignedUserId !in db.users {
      // The assignee relation's foreign key refuses the row.
      return ServerError;
    }
    var t := NewTask(newId, input.value, now);
    db.tasks := db.tasks[newId := t];
    r := Ok(t);
  }

  /** The query string of GET /tasks: each filter absent or given. */
  datatype TaskQuery = TaskQuery(status: Option<string>, assignedUserId: Option<string>, projectId: Option<string>)

  /** The `where` clause of GET /tasks: every supplied filter must match and
      the task's project must belong to the caller. */
  predicate Admits(projects: map<Id, Project>, caller: Id, q: TaskQuery, t: Task) {
    && (q.status.None? || TaskStatusName(t.status) == q.status.value)
    && (q.assignedUserId.None? || t.assignedUserId == q.assignedUserId.value)
    && (q.projectId.None? || t.projectId == q.projectId.value)
    && t.projectId in projects && projects[t.projectId].userId == caller
  }

  /** The tasks GET /tasks returns for a query whose status filter is valid. */
  function Matching(projects: map<Id, Project>, tasks: map<Id, Task>, caller: Id, q: TaskQuery): (r: set<Task>)
    ensures forall t :: t in r <==>
      && t in tasks.Values
      && t.projectId in projects && projects[t.projectId].userId == caller
      && (q.status.None? || TaskStatusName(t.status) == q.status.value)
      && (q.assignedUserId.None? || t.assignedUserId == q.assignedUserId.value)
      && (q.projectId.None? || t.projectId == q.projectId.value)
  {
    set k | k in tasks && Admits(projects, caller, q, tasks[k]) :: tasks[k]
  }

  /** Adding a filter can only narrow the result, and with no filter at all
      the result is every task of every project the caller owns. */
  lemma MatchingMonotone(projects: map<Id, Project>, tasks: map<Id, Task>, caller: Id, q: TaskQuery)
    ensures Matching(projects, tasks, caller, q) <= Matching(projects, tasks, caller, TaskQuery(None, None, None))
    ensures forall t :: t in Matching(projects, tasks, caller, TaskQuery(None, None, None)) <==>
      t in tasks.Values && t.projectId in projects && projects[t.projectId].userId == caller
  {
  }

  /** GET /tasks. A status filter outside the enumeration is refused by the
      database client; otherwise the result is exactly the matching tasks. */
  method List(db: Db, caller: Id, q: TaskQuery) returns (r: Response<set<Task>>)
    ensures r.Ok? || r.ServerError?
    ensures r.ServerError? <==> q.status.Some? && q.status.value !in {"TODO", "IN_PROGRESS", "DONE"}
    ensures r.Ok? ==> forall t :: t in r.body <==>
      && t in db.tasks.Values
      && t.projectId in db.projects && db.projects[t.projectId].userId == caller
      && (q.status.None? || TaskStatusName(t.status) == q.status.value)
      && (q.assignedUserId.None? || t.assignedUserId == q.assignedUserId.value)
      && (q.projectId.None? || t.projectId == q.projectId.value)
  {
    if q.status.Some? && ParseTaskStatus(q.status.value).None? {
      return ServerError;
    }
    r := Ok(Matching(db.projects, db.tasks, caller, q));
  }

  /** PUT /tasks/:id. The body is validated before the task is looked up. */
  method Update(db: Db, caller: Id, id: Id, body: TaskBody) returns (r: Response<Task>)
    requires db.Valid()
    modifies db
    ensures db.Valid()
    ensures ParseTaskPatch(body).None? ==> r.BadRequest?
    ensures ParseTaskPatch(body).Some? && id !in old(db.tasks) ==> r.NotFound?
    ensures ParseTaskPatch(body).Some? && id in old(db.tasks) ==>
      var t := old(db.tasks)[id];
      var p := ParseTaskPatch(body).value;
      && (!MayUpdate(caller, t, old(db.projects)[t.projectId]) ==> r.Forbidden?)
      && (MayUpdate(caller, t, old(db.projects)[t.projectId]) ==>
            if (p.projectId.Some? && p.projectId.value !in old(db.projects))
               || (p.assignedUserId.Some? && p.assignedUserId.value !in old(db.users))
            then r.ServerError?
            else r == Ok(ApplyTaskPatch(t, p)) && db.tasks == old(db.tasks)[id := r.body])
    ensures !r.Ok? ==> db.tasks == old(db.tasks)
    ensures db.users == old(db.users) && db.projects == old(db.projects)
  {
    var patch := ParseTaskPatch(body);
    if patch.None? {
      return BadRequest;
    }
    if id !in db.tasks {
      return NotFound;
    }
    var t := db.tasks[id];
    if !MayUpdate(caller, t, db.projects[t.projectId]) {
      return Forbidden;
    }
    var p := patch.value;
    if (p.projectId.Some? && p.projectId.value !in db.projects)
       || (p.assignedUserId.Some? && p.assignedUserId.value !in db.users) {
      // A foreign key of the updated row does not resolve.
      return ServerError;
    }
    var u := ApplyTaskPatch(t, p);
    db.tasks := db.tasks[id := u];
    r := Ok(u);
  }

  /** DELETE /tasks/:id. */
  method Delete(db: Db, caller: Id, id: Id) returns (r: Response<()>)
    requires db.Valid()
    modifies db
    ensures db.Valid()
    ensures id !in old(db.tasks) ==> r.NotFound?
    ensures id in old(db.tasks) ==>
      if MayDelete(caller, old(db.projects)[old(db.tasks)[id].projectId])
      then r.NoContent? && db.tasks == old(db.tasks) - {id}
      else r.Forbidden?
    ensures !r.NoContent? ==> db.tasks == old(db.tasks)
    ensures db.users == old(db.users) && db.projects == old(db.projects)
  {
    if id !in db.tasks {
      return NotFound;
    }
    if !MayDelete(caller, db.projects[db.tasks[id].projectId]) {
      return Forbidden;
    }
    db.tasks := db.tasks - {id};
    r := NoContent;
  }

  /** The query GET /projects/:projectId/tasks hands to the list handler as
      the router is mounted: the list handler reads only `req.query`, and the
      path's `:projectId` is not in it (nor, without `mergeParams`, in
      `req.params`), so no filter is set. */
  function ProjectTasksQueryAsMounted(projectId: Id): TaskQuery {
    TaskQuery(None, None, None)
  }

  /** As mounted, a project's task list also shows the caller's tasks of
      every other project. */
  lemma MountedRouteLeaksOtherProjects()
    ensures exists projects: map<Id, Project>, tasks: map<Id, Task>, caller: Id, pid: Id, t: Task ::
      t in Matching(projects, tasks, caller, ProjectTasksQueryAsMounted(pid)) && t.projectId != pid
  {
    var a := Project("p1", "Launch", "", Planned, 0, "u1");
    var b := Project("p2", "Other", "", Planned, 0, "u1");
    var t := Task("t1", "Write", "", Todo, "p2", "u1", 0);
    var projects := map["p1" := a, "p2" := b];
    var tasks := map["t1" := t];
    assert t in tasks.Values by { assert tasks["t1"] == t; }
    assert t in Matching(projects, tasks, "u1", ProjectTasksQueryAsMounted("p1"));
  }

  /** The query the page evidently means: the path's project as the `projectId` filter. */
  function ProjectTasksQuery(projectId: Id): TaskQuery {
    TaskQuery(None, None, Some(projectId))
  }

  /** With the path's project as a filter, the list is exactly the tasks of
      that project, provided the caller owns it, and nothing otherwise. */
  lemma ProjectTasksQueryIsScoped(projects: map<Id, Project>, tasks: map<Id, Task>, caller: Id, pid: Id)
    ensures forall t :: t in Matching(projects, tasks, caller, ProjectTasksQuery(pid)) ==> t.projectId == pid
    ensures ProjectAccess(projects, pid, caller) == Granted ==>
      Matching(projects, tasks, caller, ProjectTasksQuery(pid)) == TasksOf(tasks, pid)
    ensures ProjectAccess(projects, pid, caller) != Granted ==>
      Matching(projects, tasks, caller, ProjectTasksQuery(pid)) == {}
  {
  }
}
