/** The records the server keeps (users, projects, tasks), the two status
    enumerations with their wire names, and the HTTP outcome of a handler. */
module Entities {
  import opened Wrappers
  import Crypto

  type Id = string

  /** One member of a JSON request body: absent, a string, or any other
      JSON value (a number, a boolean, `null`, an array or an object). */
  datatype Field = Absent | JsonString(text: string) | OtherJson

  /** The string a field holds, if it holds one. */
  function StringOf(f: Field): (r: Option<string>)
    ensures r.Some? <==> f.JsonString?
    ensures r.Some? ==> f == JsonString(r.value)
  {
    if f.JsonString? then Some(f.text) else None
  }

  datatype TaskStatus = Todo | InProgress | Done
  datatype ProjectStatus = Planned | Ongoing | Completed

  /** Wire name of a task status. */
  function TaskStatusName(s: TaskStatus): string {
    match s
    case Todo => "TODO"
    case InProgress => "IN_PROGRESS"
    case Done => "DONE"
  }

  /** `z.enum(['TODO', 'IN_PROGRESS', 'DONE'])`: only the three literals parse. */
  function ParseTaskStatus(s: string): (r: Option<TaskStatus>)
    ensures r.Some? <==> s in {"TODO", "IN_PROGRESS", "DONE"}
    ensures r.Some? ==> TaskStatusName(r.value) == s
  {
    if s == "TODO" then Some(Todo)
    else if s == "IN_PROGRESS" then Some(InProgress)
    else if s == "DONE" then Some(Done)
    else None
  }

  lemma TaskStatusRoundTrip(s: TaskStatus)
    ensures ParseTaskStatus(TaskStatusName(s)) == Some(s)
  {
  }

  /** Wire name of a project status. */
  function ProjectStatusName(s: ProjectStatus): string {
    match s
    case Planned => "PLANNED"
    case Ongoing => "ONGOING"
    case Completed => "COMPLETED"
  }

  /** `z.enum(['PLANNED', 'ONGOING', 'COMPLETED'])`: only the three literals parse. */
  function ParseProjectStatus(s: string): (r: Option<ProjectStatus>)
    ensures r.Some? <==> s in {"PLANNED", "ONGOING", "COMPLETED"}
    ensures r.Some? ==> ProjectStatusName(r.value) == s
  {
    if s == "PLANNED" then Some(Planned)
    else if s == "ONGOING" then Some(Ongoing)
    else if s == "COMPLETED" then Some(Completed)
    else None
  }

  lemma ProjectStatusRoundTrip(s: ProjectStatus)
    ensures ParseProjectStatus(ProjectStatusName(s)) == Some(s)
  {
  }

  /** A user row; `password` holds the bcrypt digest. */
  datatype User = User(id: Id, name: string, email: string, password: Crypto.Digest, createdAt: int)

  /** The projection `{ id, name, email, createdAt }` the auth routes return. */
  datatype UserView = UserView(id: Id, name: string, email: string, createdAt: int)

  function View(u: User): (v: UserView)
    ensures v.id == u.id && v.name == u.name && v.email == u.email && v.createdAt == u.createdAt
  {
    UserView(u.id, u.name, u.email, u.createdAt)
  }

  /** A project row; `userId` is its owner. */
  datatype Project = Project(id: Id, name: string, description: string, status: ProjectStatus, createdAt: int, userId: Id)

  /** A task row. */
  datatype Task = Task(id: Id, title: string, description: string, status: TaskStatus,
                       projectId: Id, assignedUserId: Id, createdAt: int)

  /** What a handler sends. `BadRequest` is a schema-validation failure and
      `ServerError` any other exception handed to the error middleware (a
      database constraint, a library call on a missing argument). */
  datatype Response<T> =
    | Ok(body: T)
    | Created
    | NoContent
    | BadRequest
    | Unauthorized
    | Forbidden
    | NotFound
    | ServerError
  {
    /** The HTTP status code sent for the outcome. */
    function Code(): int {
      match this
      case Ok(_) => 200
      case Created => 201
      case NoContent => 204
      case BadRequest => 400
      case Unauthorized => 401
      case Forbidden => 403
      case NotFound => 404
      case ServerError => 500
    }
  }
}
