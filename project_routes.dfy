/** The `/projects` router: the project schema, the owner-only rule, and the
    create, list, get, update, delete, timeline, assigned-users and
    assign handlers. */
module ProjectRoutes {
  import opened Wrappers
  import opened Entities
  import opened Store
  import Sorting
  import Seqs
  import Crypto
  import Text

  /** A request body as received: each field absent, a string, or another JSON value. */
  datatype ProjectBody = ProjectBody(name: Field, description: Field, status: Field)

  /** A body that passed `ProjectSchema`. */
  datatype ProjectInput = ProjectInput(name: string, description: string, status: ProjectStatus)

  /** A body that passed `ProjectSchema.partial()`. */
  datatype ProjectPatch = ProjectPatch(name: Option<string>, description: Option<string>, status: Option<ProjectStatus>)

  /** `ProjectSchema.parse(body)`. */
  function ParseProject(b: ProjectBody): (r: Option<ProjectInput>)
    ensures r.Some? <==>
      && b.name.JsonString? && Text.Utf16Length(b.name.text) >= 2
      && b.description.JsonString?
      && b.status.JsonString? && b.status.text in {"PLANNED", "ONGOING", "COMPLETED"}
    ensures r.Some? ==>
      && b.name == JsonString(r.value.name)
      && b.description == JsonString(r.value.description)
      && b.status == JsonString(ProjectStatusName(r.value.status))
  {
    match (b.name, b.description, b.status)
    case (JsonString(name), JsonString(description), JsonString(status)) =>
      var st := ParseProjectStatus(status);
      if Text.Utf16Length(name) >= 2 && st.Some? then Some(ProjectInput(name, description, st.value)) else None
    case _ => None
  }

  /** `ProjectSchema.partial().parse(body)`. */
  function ParseProjectPatch(b: ProjectBody): (r: Option<ProjectPatch>)
    ensures r.Some? <==>
      && !b.name.OtherJson? && !b.description.OtherJson? && !b.status.OtherJson?
      && (b.name.JsonString? ==> Text.Utf16Length(b.name.text) >= 2)
      && (b.status.JsonString? ==> b.status.text in {"PLANNED", "ONGOING", "COMPLETED"})
    ensures r.Some? ==>
      && r.value.name == StringOf(b.name)
      && r.value.description == StringOf(b.description)
      && (r.value.status.Some? <==> b.status.JsonString?)
      && (r.value.status.Some? ==> ProjectStatusName(r.value.status.value) == b.status.text)
  {
    var status := if b.status.JsonString? then ParseProjectStatus(b.status.text) else None;
    if && !b.name.OtherJson? && !b.description.OtherJson? && !b.status.OtherJson?
       && (b.name.JsonString? ==> Text.Utf16Length(b.name.text) >= 2)
       && (b.status.JsonString? ==> status.Some?)
    then Some(ProjectPatch(StringOf(b.name), StringOf(b.description), status))
    else None
  }

  /** A status outside the enumeration is refused even when it is the only field. */
  lemma StatusOnlyPatch(s: string)
    ensures ParseProjectPatch(ProjectBody(Absent, Absent, JsonString(s))).Some? <==> s in {"PLANNED", "ONGOING", "COMPLETED"}
  {
  }

  /** `prisma.project.update({ data })`: present fields are overwritten; the
      id, owner and creation time never change. */
  function ApplyProjectPatch(p: Project, d: ProjectPatch): (r: Project)
    ensures r.id == p.id && r.userId == p.userId && r.createdAt == p.createdAt
    ensures r.name == d.name.GetOr(p.name)
    ensures r.description == d.description.GetOr(p.description)
    ensures r.status == d.status.GetOr(p.status)
  {
    Project(p.id, d.name.GetOr(p.name), d.description.GetOr(p.description), d.status.GetOr(p.status), p.createdAt, p.userId)
  }

  /** POST /projects: the new project's owner is always the caller. The
      owner relation's foreign key refuses a caller with no user row. */
  method Create(db: Db, caller: Id, body: ProjectBody, newId: Id, now: int) returns (r: Response<Project>)
    requires db.Valid() && newId !in db.projects
    modifies db
    ensures db.Valid()
    ensures ParseProject(body).None? ==> r.BadRequest?
    ensures ParseProject(body).Some? && caller !in old(db.users) ==> r.ServerError?
    ensures ParseProject(body).Some? && caller in old(db.users) ==>
      var i := ParseProject(body).value;
      && r == Ok(Project(newId, i.name, i.description, i.status, now, caller))
      && db.projects == old(db.projects)[newId := r.body]
    ensures !r.Ok? ==> db.projects == old(db.projects)
    ensures db.users == old(db.users) && db.tasks == old(db.tasks)
  {
    var input := ParseProject(body);
    if input.None? {
      return BadRequest;
    }
    if caller !in db.users {
      return ServerError;
    }
    var p := Project(newId, input.value.name, input.value.description, input.value.status, now, caller);
    db.projects := db.projects[newId := p];
    r := Ok(p);
  }

  /** A project with the rows of its `tasks` relation. */
  datatype ProjectWithTasks = ProjectWithTasks(project: Project, tasks: set<Task>)

  /** GET /projects: exactly the caller's projects, each with its tasks. */
  method List(db: Db, caller: Id) returns (r: set<ProjectWithTasks>)
    requires db.Valid()
    ensures forall e :: e in r <==>
      e.project in db.projects.Values && e.project.userId == caller && e.tasks == TasksOf(db.tasks, e.project.id)
  {
    r := set k | k in db.projects && db.projects[k].userId == caller
           :: ProjectWithTasks(db.projects[k], TasksOf(db.tasks, k));
  }

  /** GET /projects/:id. */
  method Get(db: Db, caller: Id, id: Id) returns (r: Response<ProjectWithTasks>)
    ensures r.Ok? || r.NotFound? || r.Forbidden?
    ensures r.NotFound? <==> id !in db.projects
    ensures r.Forbidden? <==> id in db.projects && db.projects[id].userId != caller
    ensures r.Ok? ==> r.body == ProjectWithTasks(db.projects[id], TasksOf(db.tasks, id))
  {
    var access := ProjectAccess(db.projects, id, caller);
    if !access.Granted? {
      return Refusal(access);
    }
    r := Ok(ProjectWithTasks(db.projects[id], TasksOf(db.tasks, id)));
  }

  /** PUT /projects/:id. The body is validated before the project is looked up. */
  method Update(db: Db, caller: Id, id: Id, body: ProjectBody) returns (r: Response<Project>)
    requires db.Valid()
    modifies db
    ensures db.Valid()
    ensures ParseProjectPatch(body).None? ==> r.BadRequest?
    ensures ParseProjectPatch(body).Some? ==>
      match ProjectAccess(old(db.projects), id, caller)
      case Missing => r.NotFound?
      case Denied => r.Forbidden?
      case Granted =>
        && r == Ok(ApplyProjectPatch(old(db.projects)[id], ParseProjectPatch(body).value))
        && db.projects == old(db.projects)[id := r.body]
    ensures !r.Ok? ==> db.projects == old(db.projects)
    ensures db.users == old(db.users) && db.tasks == old(db.tasks)
  {
    var patch := ParseProjectPatch(body);
    if patch.None? {
      return BadRequest;
    }
    var access := ProjectAccess(db.projects, id, caller);
    if !access.Granted? {
      return Refusal(access);
    }
    var p := ApplyProjectPatch(db.projects[id], patch.value);
    db.projects := db.projects[id := p];
    r := Ok(p);
  }

  /** What the schema's `onDelete` rule for a project's tasks does; the
      schema is not part of this model, so both rules are covered. */
  datatype DeleteRule = Cascade | Restrict

  /** The tasks that do not belong to project `id`. */
  function TasksNotOf(tasks: map<Id, Task>, id: Id): (r: map<Id, Task>)
    ensures forall k :: k in r <==> k in tasks && tasks[k].projectId != id
    ensures forall k :: k in r ==> r[k] == tasks[k]
  {
    map k | k in tasks && tasks[k].projectId != id :: tasks[k]
  }

  /** Removing a project together with its tasks keeps the store consistent. */
  lemma DeleteKeepsConsistent(users: map<Id, User>, projects: map<Id, Project>, tasks: map<Id, Task>, id: Id)
    requires Consistent(users, projects, tasks)
    ensures Consistent(users, projects - {id}, TasksNotOf(tasks, id))
  {
  }

  /** DELETE /projects/:id. */
  method Delete(db: Db, caller: Id, id: Id, rule: DeleteRule) returns (r: Response<()>)
    requires db.Valid()
    modifies db
    ensures db.Valid()
    ensures match ProjectAccess(old(db.projects), id, caller)
      case Missing => r.NotFound?
      case Denied => r.Forbidden?
      case Granted =>
        if rule == Restrict && TasksOf(old(db.tasks), id) != {} then r.ServerError?
        else r.NoContent? && db.projects == old(db.projects) - {id}
             && db.tasks == TasksNotOf(old(db.tasks), id)
    ensures !r.NoContent? ==> db.projects == old(db.projects) && db.tasks == old(db.tasks)
    ensures db.users == old(db.users)
  {
    var access := ProjectAccess(db.projects, id, caller);
    if !access.Granted? {
      return Refusal(access);
    }
    if rule == Restrict && TasksOf(db.tasks, id) != {} {
      return ServerError;
    }
    if rule == Restrict {
      assert TasksNotOf(db.tasks, id) == db.tasks;
    }
    DeleteKeepsConsistent(db.users, db.projects, db.tasks, id);
    db.tasks := TasksNotOf(db.tasks, id);
    db.projects := db.projects - {id};
    r := NoContent;
  }

  /** One entry of the project timeline. */
  datatype TimelineEvent = TimelineEvent(id: string, kind: string, description: string, timestamp: int, userName: string)

  /** The `project.tasks.map(...)` step of the timeline for one task. */
  function TimelineEntry(t: Task, assignee: User): (e: TimelineEvent)
    ensures e.id == "task-" + t.id && e.kind == "TASK_CREATED"
    ensures e.timestamp == t.createdAt && e.userName == assignee.name
  {
    TimelineEvent("task-" + t.id, "TASK_CREATED",
                  "Task \"" + t.title + "\" was created and assigned to " + assignee.name,
                  t.createdAt, assignee.name)
  }

  function CreatedAt(t: Task): int {
    t.createdAt
  }

  /** The timeline of a sequence of tasks whose assignees are all users. */
  function TimelineOf(users: map<Id, User>, ts: seq<Task>): (r: seq<TimelineEvent>)
    requires forall i :: 0 <= i < |ts| ==> ts[i].assignedUserId in users
    ensures |r| == |ts|
    ensures forall i :: 0 <= i < |ts| ==> r[i] == TimelineEntry(ts[i], users[ts[i].assignedUserId])
  {
    seq(|ts|, i requires 0 <= i < |ts| => TimelineEntry(ts[i], users[ts[i].assignedUserId]))
  }

  function Timestamp(e: TimelineEvent): int {
    e.timestamp
  }

  /** The timeline of the rows of a task set: sorted newest first, then mapped. */
  function TimelineOfRows(users: map<Id, User>, rows: seq<Task>): (r: seq<TimelineEvent>)
    requires forall i :: 0 <= i < |rows| ==> rows[i].assignedUserId in users
  {
    var sorted := Sorting.SortDesc(rows, CreatedAt);
    assert forall i :: 0 <= i < |sorted| ==> sorted[i] in multiset(rows);
    TimelineOf(users, sorted)
  }

  /** Mapping keeps the newest-first order, since an event's timestamp is its task's creation time. */
  lemma TimelineOfSorted(users: map<Id, User>, ts: seq<Task>)
    requires forall i :: 0 <= i < |ts| ==> ts[i].assignedUserId in users
    requires Sorting.SortedDesc(ts, CreatedAt)
    ensures Sorting.SortedDesc(TimelineOf(users, ts), Timestamp)
  {
    var events := TimelineOf(users, ts);
    forall i, j | 0 <= i < j < |events| ensures Timestamp(events[i]) >= Timestamp(events[j]) {
      assert CreatedAt(ts[i]) >= CreatedAt(ts[j]);
    }
  }

  /** Every task of the set has its event among the mapped rows. */
  lemma TimelineOfCovers(users: map<Id, User>, tasks: set<Task>, ts: seq<Task>)
    requires multiset(ts) == multiset(tasks)
    requires forall t :: t in tasks ==> t.assignedUserId in users
    requires forall i :: 0 <= i < |ts| ==> ts[i].assignedUserId in users
    ensures forall t :: t in tasks ==> TimelineEntry(t, users[t.assignedUserId]) in TimelineOf(users, ts)
  {
    var events := TimelineOf(users, ts);
    forall t | t in tasks
      ensures TimelineEntry(t, users[t.assignedUserId]) in events
    {
      assert t in multiset(ts);
      var i :| 0 <= i < |ts| && ts[i] == t;
      assert events[i] == TimelineEntry(t, users[t.assignedUserId]);
    }
  }

  /** Every mapped event comes from some task of the set. */
  lemma TimelineOfSound(users: map<Id, User>, tasks: set<Task>, ts: seq<Task>)
    requires multiset(ts) == multiset(tasks)
    requires forall t :: t in tasks ==> t.assignedUserId in users
    requires forall i :: 0 <= i < |ts| ==> ts[i].assignedUserId in users
    ensures forall e :: e in TimelineOf(users, ts) ==>
      exists t :: t in tasks && e == TimelineEntry(t, users[t.assignedUserId])
  {
    var events := TimelineOf(users, ts);
    forall e | e in events
      ensures exists t :: t in tasks && e == TimelineEntry(t, users[t.assignedUserId])
    {
      var i :| 0 <= i < |events| && events[i] == e;
      assert ts[i] in multiset(ts);
    }
  }

  /** Whatever order the rows of `tasks` come in, the timeline has exactly
      one event per task, every event comes from a task, and the events are
      newest first. */
  lemma {:induction false} TimelineProperties(users: map<Id, User>, tasks: set<Task>, rows: seq<Task>)
    requires multiset(rows) == multiset(tasks)
    requires forall t :: t in tasks ==> t.assignedUserId in users
    ensures forall i :: 0 <= i < |rows| ==> rows[i].assignedUserId in users
    ensures |TimelineOfRows(users, rows)| == |tasks|
    ensures Sorting.SortedDesc(TimelineOfRows(users, rows), Timestamp)
    ensures forall t :: t in tasks ==> TimelineEntry(t, users[t.assignedUserId]) in TimelineOfRows(users, rows)
    ensures forall e :: e in TimelineOfRows(users, rows) ==>
      exists t :: t in tasks && e == TimelineEntry(t, users[t.assignedUserId])
  {
    assert forall i :: 0 <= i < |rows| ==> rows[i] in multiset(tasks);
    var sorted := Sorting.SortDesc(rows, CreatedAt);
    Sorting.SortDescSorted(rows, CreatedAt);
    assert forall i :: 0 <= i < |sorted| ==> sorted[i] in multiset(rows);
    assert TimelineOf(users, sorted) == TimelineOfRows(users, rows);
    assert |multiset(rows)| == |multiset(tasks)|;
    TimelineOfSorted(users, sorted);
    TimelineOfCovers(users, tasks, sorted);
    TimelineOfSound(users, tasks, sorted);
  }

  /** GET /projects/:id/timeline: one TASK_CREATED event per task of the
      project, newest first. */
  method Timeline(db: Db, caller: Id, id: Id) returns (r: Response<seq<TimelineEvent>>)
    requires db.Valid()
    ensures r.Ok? || r.NotFound? || r.Forbidden?
    ensures r.NotFound? <==> id !in db.projects
    ensures r.Forbidden? <==> id in db.projects && db.projects[id].userId != caller
    ensures r.Ok? ==>
      && |r.body| == |TasksOf(db.tasks, id)|
      && Sorting.SortedDesc(r.body, Timestamp)
      && (forall t :: t in TasksOf(db.tasks, id) ==>
            TimelineEntry(t, db.users[t.assignedUserId]) in r.body)
      && (forall e :: e in r.body ==>
            exists t :: t in TasksOf(db.tasks, id) && e == TimelineEntry(t, db.users[t.assignedUserId]))
  {
    var access := ProjectAccess(db.projects, id, caller);
    if !access.Granted? {
      return Refusal(access);
    }
    var tasks := TasksOf(db.tasks, id);
    var rows := Rows(tasks);
    TimelineProperties(db.users, tasks, rows);
    r := Ok(TimelineOfRows(db.users, rows));
  }

  /** The assignee ids of a sequence of tasks, in order. */
  function AssigneeIds(rows: seq<Task>): (ids: seq<Id>)
    ensures |ids| == |rows|
    ensures forall i :: 0 <= i < |rows| ==> ids[i] == rows[i].assignedUserId
  {
    seq(|rows|, i requires 0 <= i < |rows| => rows[i].assignedUserId)
  }

  /** `id` names a user stored under that id. */
  predicate Resolves(users: map<Id, User>, id: Id) {
    id in users && users[id].id == id
  }

  /** GET /projects/:id/users as written: `project.tasks.map(task => task.assignedUser)`
      with the relation included in full, put through a `Set` (which holds one
      object per task, so nothing is merged) and `filter(Boolean)` (which drops
      a task whose assignee row is missing). */
  function AssignedUsersAsWritten(users: map<Id, User>, rows: seq<Task>): (r: seq<User>)
    ensures |r| <= |rows|
    ensures forall i :: 0 <= i < |r| ==> Resolves(users, r[i].id) && r[i] == users[r[i].id] && r[i].id in AssigneeIds(rows)
    ensures forall j :: 0 <= j < |rows| && Resolves(users, rows[j].assignedUserId) ==> users[rows[j].assignedUserId] in r
    decreases |rows|
  {
    if rows == [] then []
    else
      var id := rows[0].assignedUserId;
      assert AssigneeIds(rows) == [id] + AssigneeIds(rows[1..]);
      assert forall j :: 1 <= j < |rows| ==> rows[j] == rows[1..][j - 1];
      (if Resolves(users, id) then [users[id]] else []) + AssignedUsersAsWritten(users, rows[1..])
  }

  /** As written, the response carries each listed user's stored password digest. */
  lemma AssignedUsersExposeDigest(users: map<Id, User>, rows: seq<Task>, i: nat)
    requires i < |AssignedUsersAsWritten(users, rows)|
    ensures AssignedUsersAsWritten(users, rows)[i].password == users[AssignedUsersAsWritten(users, rows)[i].id].password
  {
  }

  /** A concrete case: a project with one task lists its assignee together
      with the digest of the assignee's password. */
  lemma AssignedUsersExposeDigestExample()
    ensures var u := User("u1", "Bob", "b@x.com", Crypto.Hash("secret1"), 0);
      var t := Task("t1", "Write", "", Todo, "p1", "u1", 0);
      AssignedUsersAsWritten(map["u1" := u], [t]) == [u] && u.password == Crypto.Hash("secret1")
  {
    var u := User("u1", "Bob", "b@x.com", Crypto.Hash("secret1"), 0);
    var t := Task("t1", "Write", "", Todo, "p1", "u1", 0);
    assert [t][1..] == [];
  }

  /** GET /projects/:id/users with the relation projected to
      `{ id, name, email, createdAt }`, as the auth routes do: one entry per
      task whose assignee exists, and only such entries. */
  function AssignedUsers(users: map<Id, User>, rows: seq<Task>): (r: seq<UserView>)
    ensures |r| <= |rows|
    ensures forall i :: 0 <= i < |r| ==> Resolves(users, r[i].id) && r[i] == View(users[r[i].id]) && r[i].id in AssigneeIds(rows)
    ensures forall j :: 0 <= j < |rows| && Resolves(users, rows[j].assignedUserId) ==> View(users[rows[j].assignedUserId]) in r
  {
    var w := AssignedUsersAsWritten(users, rows);
    var r := seq(|w|, i requires 0 <= i < |w| => View(w[i]));
    assert forall j :: 0 <= j < |rows| && Resolves(users, rows[j].assignedUserId) ==> View(users[rows[j].assignedUserId]) in r by {
      forall j | 0 <= j < |rows| && Resolves(users, rows[j].assignedUserId)
        ensures View(users[rows[j].assignedUserId]) in r {
        var k :| 0 <= k < |w| && w[k] == users[rows[j].assignedUserId];
        assert r[k] == View(w[k]);
      }
    }
    r
  }

  /** GET /projects/:id/users (with the projection of `AssignedUsers`). */
  method Users(db: Db, caller: Id, id: Id) returns (r: Response<seq<UserView>>)
    requires db.Valid()
    ensures r.Ok? || r.NotFound? || r.Forbidden?
    ensures r.NotFound? <==> id !in db.projects
    ensures r.Forbidden? <==> id in db.projects && db.projects[id].userId != caller
    ensures r.Ok? ==>
      && |r.body| <= |TasksOf(db.tasks, id)|
      && (forall v :: v in r.body ==>
            v.id in db.users && v == View(db.users[v.id]) &&
            exists t :: t in TasksOf(db.tasks, id) && t.assignedUserId == v.id)
      && (forall t :: t in TasksOf(db.tasks, id) ==> View(db.users[t.assignedUserId]) in r.body)
  {
    var access := ProjectAccess(db.projects, id, caller);
    if !access.Granted? {
      return Refusal(access);
    }
    var tasks := TasksOf(db.tasks, id);
    var rows := Rows(tasks);
    var views := AssignedUsers(db.users, rows);
    assert |rows| == |tasks| by {
      assert |multiset(rows)| == |multiset(tasks)|;
    }
    forall v | v in views ensures exists t :: t in tasks && t.assignedUserId == v.id {
      var ids := AssigneeIds(rows);
      var j :| 0 <= j < |ids| && ids[j] == v.id;
      assert rows[j] in multiset(tasks);
    }
    forall t | t in tasks ensures View(db.users[t.assignedUserId]) in views {
      assert t in multiset(rows);
      var j :| 0 <= j < |rows| && rows[j] == t;
    }
    r := Ok(views);
  }

  /** The placeholder task POST /projects/:id/users inserts to associate a user with a project. */
  function AssignmentTask(id: Id, projectId: Id, userId: Id, now: int): (t: Task)
    ensures t.title == "Project Assignment" && t.status == Todo
    ensures t.projectId == projectId && t.assignedUserId == userId
  {
    Task(id, "Project Assignment", "User assigned to project", Todo, projectId, userId, now)
  }

  /** POST /projects/:id/users with body `{ userId }`. The body is not
      validated: a missing `userId` or one naming no user is refused by the
      database as a required field or a foreign key. */
  method Assign(db: Db, caller: Id, id: Id, userId: Option<string>, newId: Id, now: int) returns (r: Response<()>)
    requires db.Valid() && newId !in db.tasks
    modifies db
    ensures db.Valid()
    ensures match ProjectAccess(old(db.projects), id, caller)
      case Missing => r.NotFound?
      case Denied => r.Forbidden?
      case Granted =>
        if userId.None? || userId.value !in old(db.users) then r.ServerError?
        else r.Created? && db.tasks == old(db.tasks)[newId := AssignmentTask(newId, id, userId.value, now)]
    ensures !r.Created? ==> db.tasks == old(db.tasks)
    ensures db.users == old(db.users) && db.projects == old(db.projects)
  {
    var access := ProjectAccess(db.projects, id, caller);
    if !access.Granted? {
      return Refusal(access);
    }
    if userId.None? || userId.value !in db.users {
      return ServerError;
    }
    db.tasks := db.tasks[newId := AssignmentTask(newId, id, userId.value, now)];
    r := Created;
  }
}
