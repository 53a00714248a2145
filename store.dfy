/** The database the route handlers talk to, as one object holding the
    three tables, keyed by id, plus the lookups every handler shares. */
module Store {
  import opened Wrappers
  import opened Entities

  /** Result of `findUnique` on a project followed by the owner comparison
      `project.userId !== req.user.id`. */
  datatype Access = Missing | Denied | Granted

  /** Existence is decided before ownership: an unknown id is `Missing`
      whoever asks, and only a known id can be `Denied`. */
  function ProjectAccess(projects: map<Id, Project>, id: Id, caller: Id): (a: Access)
    ensures a == Missing <==> id !in projects
    ensures a == Denied <==> id in projects && projects[id].userId != caller
    ensures a == Granted <==> id in projects && projects[id].userId == caller
  {
    if id !in projects then Missing
    else if projects[id].userId != caller then Denied
    else Granted
  }

  /** The response a refused access produces: 404, or 403. */
  function Refusal<T>(a: Access): (r: Response<T>)
    requires !a.Granted?
    ensures r.NotFound? <==> a.Missing?
    ensures r.Forbidden? <==> a.Denied?
  {
    if a.Missing? then NotFound else Forbidden
  }

  /** Every user has a different email (the key `findUnique({ where: { email } })` relies on). */
  ghost predicate EmailsUnique(users: map<Id, User>) {
    forall a, b :: a in users && b in users && users[a].email == users[b].email ==> a == b
  }

  /** An email address some user already has. */
  predicate EmailTaken(users: map<Id, User>, email: string) {
    exists k :: k in users && users[k].email == email
  }

  /** The tasks of project `pid` (`project.tasks`). */
  function TasksOf(tasks: map<Id, Task>, pid: Id): (r: set<Task>)
    ensures forall t :: t in r <==> t in tasks.Values && t.projectId == pid
  {
    set k | k in tasks && tasks[k].projectId == pid :: tasks[k]
  }

  /** The rows of a table, in the unspecified order the database returns them. */
  method Rows<T(==)>(s: set<T>) returns (r: seq<T>)
    ensures multiset(r) == multiset(s)
  {
    r := [];
    var rest := s;
    while rest != {}
      invariant rest <= s
      invariant multiset(r) + multiset(rest) == multiset(s)
      decreases |rest|
    {
      var x :| x in rest;
      r := r + [x];
      rest := rest - {x};
    }
  }

  /** The store's invariant over its three tables. */
  ghost predicate Consistent(users: map<Id, User>, projects: map<Id, Project>, tasks: map<Id, Task>) {
    && (forall k :: k in users ==> users[k].id == k)
    && (forall k :: k in projects ==> projects[k].id == k)
    && (forall k :: k in tasks ==> tasks[k].id == k)
    && EmailsUnique(users)
    && (forall k :: k in projects ==> projects[k].userId in users)
    && (forall k :: k in tasks ==> tasks[k].projectId in projects && tasks[k].assignedUserId in users)
  }

  class Db {
    var users: map<Id, User>
    var projects: map<Id, Project>
    var tasks: map<Id, Task>

    /** Each row is stored under its own id, emails are unique, and every
        foreign key resolves: a project's owner, a task's project and a
        task's assignee. */
    ghost predicate Valid()
      reads this
    {
      Consistent(users, projects, tasks)
    }

    constructor ()
      ensures Valid()
      ensures users == map[] && projects == map[] && tasks == map[]
    {
      users, projects, tasks := map[], map[], map[];
    }

    /** `prisma.user.findUnique({ where: { email } })`. */
    method FindUserByEmail(email: string) returns (u: Option<User>)
      requires Valid()
      ensures u.Some? <==> EmailTaken(users, email)
      ensures u.Some? ==> u.value.id in users && users[u.value.id] == u.value && u.value.email == email
    {
      if EmailTaken(users, email) {
        var k :| k in users && users[k].email == email;
        u := Some(users[k]);
      } else {
        u := None;
      }
    }
  }
}
