/** The dashboard router: global counts and a recent-activity feed. Both
    read every record, whoever the caller is. */
module DashboardRoutes {
  import opened Entities
  import opened Store
  import Sorting

  /** The body of GET /dashboard/stats. */
  datatype Stats = Stats(totalProjects: nat, completedProjects: nat, totalTasks: nat,
                         completedTasks: nat, activeUsers: nat)

  /** Ids of the projects whose status is COMPLETED. */
  function CompletedProjects(projects: map<Id, Project>): (r: set<Id>)
    ensures forall k :: k in r <==> k in projects && projects[k].status == Completed
  {
    set k | k in projects && projects[k].status == Completed
  }

  /** Ids of the tasks whose status is DONE. */
  function DoneTasks(tasks: map<Id, Task>): (r: set<Id>)
    ensures forall k :: k in r <==> k in tasks && tasks[k].status == Done
  {
    set k | k in tasks && tasks[k].status == Done
  }

  /** A subset is no larger than the set, and only the whole set has its size. */
  lemma SubsetSize<T>(a: set<T>, b: set<T>)
    requires a <= b
    ensures |a| <= |b|
    ensures |a| == |b| ==> a == b
  {
    var rest := b - a;
    assert b == a + rest;
    assert |b| == |a| + |rest|;
  }

  /** The five counts; none is restricted to the caller's records. */
  function StatsOf(users: map<Id, User>, projects: map<Id, Project>, tasks: map<Id, Task>): (s: Stats)
    ensures s.totalProjects == |projects| && s.totalTasks == |tasks| && s.activeUsers == |users|
    ensures s.completedProjects == |CompletedProjects(projects)| && s.completedTasks == |DoneTasks(tasks)|
    ensures s.completedProjects <= s.totalProjects && s.completedTasks <= s.totalTasks
  {
    SubsetSize(CompletedProjects(projects), projects.Keys);
    SubsetSize(DoneTasks(tasks), tasks.Keys);
    Stats(|projects|, |CompletedProjects(projects)|, |tasks|, |DoneTasks(tasks)|, |users|)
  }

  /** The completed counts are zero exactly when no record is completed, and
      equal to the totals exactly when every record is. */
  lemma {:induction false} StatsExtremes(users: map<Id, User>, projects: map<Id, Project>, tasks: map<Id, Task>)
    ensures StatsOf(users, projects, tasks).completedProjects == 0 <==>
      forall k :: k in projects ==> projects[k].status != Completed
    ensures StatsOf(users, projects, tasks).completedProjects == |projects| <==>
      forall k :: k in projects ==> projects[k].status == Completed
    ensures StatsOf(users, projects, tasks).completedTasks == 0 <==>
      forall k :: k in tasks ==> tasks[k].status != Done
    ensures StatsOf(users, projects, tasks).completedTasks == |tasks| <==>
      forall k :: k in tasks ==> tasks[k].status == Done
  {
    var cp, dt := CompletedProjects(projects), DoneTasks(tasks);
    assert |projects.Keys| == |projects| && |tasks.Keys| == |tasks|;
    SubsetSize(cp, projects.Keys);
    if forall k :: k in projects ==> projects[k].status == Completed {
      assert cp == projects.Keys;
    }
    SubsetSize(dt, tasks.Keys);
    if forall k :: k in tasks ==> tasks[k].status == Done {
      assert dt == tasks.Keys;
    }
  }

  /** GET /dashboard/stats. */
  method GetStats(db: Db) returns (s: Stats)
    ensures s == StatsOf(db.users, db.projects, db.tasks)
  {
    s := StatsOf(db.users, db.projects, db.tasks);
  }

  datatype ActivityKind = ProjectCreated | TaskAssigned

  function KindName(k: ActivityKind): string {
    match k
    case ProjectCreated => "PROJECT_CREATED"
    case TaskAssigned => "TASK_ASSIGNED"
  }

  /** One entry of GET /dashboard/activity. */
  datatype Activity = Activity(id: string, kind: ActivityKind, description: string, timestamp: int)

  function ProjectTime(p: Project): int {
    p.createdAt
  }

  function TaskTime(t: Task): int {
    t.createdAt
  }

  function Timestamp(a: Activity): int {
    a.timestamp
  }

  /** The entry for a recently created project, joined with its owner. */
  function ProjectActivity(p: Project, owner: User): (a: Activity)
    ensures a.id == "project-" + p.id && a.kind == ProjectCreated && a.timestamp == p.createdAt
  {
    Activity("project-" + p.id, ProjectCreated,
             owner.name + " created project \"" + p.name + "\"", p.createdAt)
  }

  /** The entry for a recently created task, joined with its assignee and project. */
  function TaskActivity(t: Task, assignee: User, project: Project): (a: Activity)
    ensures a.id == "task-" + t.id && a.kind == TaskAssigned && a.timestamp == t.createdAt
  {
    Activity("task-" + t.id, TaskAssigned,
             assignee.name + " was assigned to \"" + t.title + "\" in " + project.name, t.createdAt)
  }

  /** The joins of the feed resolve: each project's owner is a user, each
      task's assignee is a user and its project a project. */
  predicate Joinable(users: map<Id, User>, projects: map<Id, Project>, ps: seq<Project>, ts: seq<Task>) {
    && (forall p :: p in ps ==> p.userId in users)
    && (forall t :: t in ts ==> t.assignedUserId in users && t.projectId in projects)
  }

  function ProjectEvents(users: map<Id, User>, ps: seq<Project>): (r: seq<Activity>)
    requires forall p :: p in ps ==> p.userId in users
    ensures |r| == |ps|
    ensures forall i :: 0 <= i < |ps| ==> r[i] == ProjectActivity(ps[i], users[ps[i].userId])
  {
    seq(|ps|, i requires 0 <= i < |ps| => ProjectActivity(ps[i], users[ps[i].userId]))
  }

  function TaskEvents(users: map<Id, User>, projects: map<Id, Project>, ts: seq<Task>): (r: seq<Activity>)
    requires forall t :: t in ts ==> t.assignedUserId in users && t.projectId in projects
    ensures |r| == |ts|
    ensures forall i :: 0 <= i < |ts| ==>
      r[i] == TaskActivity(ts[i], users[ts[i].assignedUserId], projects[ts[i].projectId])
  {
    seq(|ts|, i requires 0 <= i < |ts| =>
      TaskActivity(ts[i], users[ts[i].assignedUserId], projects[ts[i].projectId]))
  }

  /** The five newest projects. */
  function RecentProjects(ps: seq<Project>): seq<Project> {
    Sorting.Newest(ps, 5, ProjectTime)
  }

  /** The five newest tasks. */
  function RecentTasks(ts: seq<Task>): seq<Task> {
    Sorting.Newest(ts, 5, TaskTime)
  }

  /** The project entries followed by the task entries, before sorting. */
  function Candidates(users: map<Id, User>, projects: map<Id, Project>, ps: seq<Project>, ts: seq<Task>): (r: seq<Activity>)
    requires Joinable(users, projects, ps, ts)
  {
    ProjectEvents(users, RecentProjects(ps)) + TaskEvents(users, projects, RecentTasks(ts))
  }

  /** The feed for project rows `ps` and task rows `ts`, in whatever order
      the database returns them: sorted newest first and cut at ten. */
  function Feed(users: map<Id, User>, projects: map<Id, Project>, ps: seq<Project>, ts: seq<Task>): seq<Activity>
    requires Joinable(users, projects, ps, ts)
  {
    Sorting.Newest(Candidates(users, projects, ps, ts), 10, Timestamp)
  }

  /** Every candidate entry is a project entry of a recent project or a task
      entry of a recent task. */
  lemma CandidatesFrom(users: map<Id, User>, projects: map<Id, Project>, ps: seq<Project>, ts: seq<Task>, a: Activity)
    requires Joinable(users, projects, ps, ts)
    requires a in Candidates(users, projects, ps, ts)
    ensures || (exists p :: p in RecentProjects(ps) && a == ProjectActivity(p, users[p.userId]))
            || (exists t :: t in RecentTasks(ts) &&
                  a == TaskActivity(t, users[t.assignedUserId], projects[t.projectId]))
  {
    var pe := ProjectEvents(users, RecentProjects(ps));
    var te := TaskEvents(users, projects, RecentTasks(ts));
    assert a in pe + te;
    if a in pe {
      ProjectEventFrom(users, RecentProjects(ps), a);
    } else {
      TaskEventFrom(users, projects, RecentTasks(ts), a);
    }
  }

  lemma ProjectEventFrom(users: map<Id, User>, ps: seq<Project>, a: Activity)
    requires forall p :: p in ps ==> p.userId in users
    requires a in ProjectEvents(users, ps)
    ensures exists p :: p in ps && a == ProjectActivity(p, users[p.userId])
  {
    var i :| 0 <= i < |ps| && ProjectEvents(users, ps)[i] == a;
    assert ps[i] in ps;
  }

  lemma TaskEventFrom(users: map<Id, User>, projects: map<Id, Project>, ts: seq<Task>, a: Activity)
    requires forall t :: t in ts ==> t.assignedUserId in users && t.projectId in projects
    requires a in TaskEvents(users, projects, ts)
    ensures exists t :: t in ts && a == TaskActivity(t, users[t.assignedUserId], projects[t.projectId])
  {
    var i :| 0 <= i < |ts| && TaskEvents(users, projects, ts)[i] == a;
    assert ts[i] in ts;
  }

  /** What the feed promises: at most ten entries, as many as there are
      candidates up to ten, newest first, each taken once from the
      candidates (a project entry of one of the five newest projects or a
      task entry of one of the five newest tasks), and none older than a
      candidate that was cut. */
  lemma {:induction false} FeedProperties(users: map<Id, User>, projects: map<Id, Project>, ps: seq<Project>, ts: seq<Task>)
    requires Joinable(users, projects, ps, ts)
    ensures |Feed(users, projects, ps, ts)| ==
      var n := |RecentProjects(ps)| + |RecentTasks(ts)|; if n <= 10 then n else 10
    ensures Sorting.SortedDesc(Feed(users, projects, ps, ts), Timestamp)
    ensures multiset(Feed(users, projects, ps, ts)) <= multiset(Candidates(users, projects, ps, ts))
    ensures forall a :: a in Feed(users, projects, ps, ts) ==>
      || (exists p :: p in RecentProjects(ps) && a == ProjectActivity(p, users[p.userId]))
      || (exists t :: t in RecentTasks(ts) &&
            a == TaskActivity(t, users[t.assignedUserId], projects[t.projectId]))
    ensures forall a, b ::
      (a in Feed(users, projects, ps, ts) && b in Sorting.LeftOut(Candidates(users, projects, ps, ts), 10, Timestamp))
      ==> a.timestamp >= b.timestamp
  {
    var c := Candidates(users, projects, ps, ts);
    Sorting.NewestProperties(c, 10, Timestamp);
    forall a | a in Feed(users, projects, ps, ts)
      ensures || (exists p :: p in RecentProjects(ps) && a == ProjectActivity(p, users[p.userId]))
              || (exists t :: t in RecentTasks(ts) &&
                    a == TaskActivity(t, users[t.assignedUserId], projects[t.projectId]))
    {
      CandidatesFrom(users, projects, ps, ts, a);
    }
  }

  /** The recent projects are the newest of all project rows, and likewise
      for tasks. */
  lemma {:induction false} RecentAreNewest(ps: seq<Project>, ts: seq<Task>)
    ensures |RecentProjects(ps)| == if |ps| <= 5 then |ps| else 5
    ensures |RecentTasks(ts)| == if |ts| <= 5 then |ts| else 5
    ensures forall p, q :: p in RecentProjects(ps) && q in Sorting.LeftOut(ps, 5, ProjectTime) ==>
      p.createdAt >= q.createdAt
    ensures forall t, u :: t in RecentTasks(ts) && u in Sorting.LeftOut(ts, 5, TaskTime) ==>
      t.createdAt >= u.createdAt
  {
    Sorting.NewestProperties(ps, 5, ProjectTime);
    Sorting.NewestProperties(ts, 5, TaskTime);
  }

  /** GET /dashboard/activity over the stored rows, which the database
      returns in an order the model does not fix. */
  method GetActivity(db: Db) returns (r: seq<Activity>)
    requires db.Valid()
    ensures |r| <= 10
    ensures Sorting.SortedDesc(r, Timestamp)
    ensures forall a :: a in r ==> FromStore(db.users, db.projects, db.tasks, a)
  {
    var ps := Rows(db.projects.Values);
    var ts := Rows(db.tasks.Values);
    FeedOfStore(db.users, db.projects, db.tasks, ps, ts);
    r := Feed(db.users, db.projects, ps, ts);
  }

  /** The feed over rows fetched from a foreign-key-consistent store. */
  lemma FeedOfStore(users: map<Id, User>, projects: map<Id, Project>, tasks: map<Id, Task>,
                    ps: seq<Project>, ts: seq<Task>)
    requires multiset(ps) == multiset(projects.Values) && multiset(ts) == multiset(tasks.Values)
    requires forall k :: k in projects ==> projects[k].userId in users
    requires forall k :: k in tasks ==> tasks[k].projectId in projects && tasks[k].assignedUserId in users
    ensures Joinable(users, projects, ps, ts)
    ensures |Feed(users, projects, ps, ts)| <= 10
    ensures Sorting.SortedDesc(Feed(users, projects, ps, ts), Timestamp)
    ensures forall a :: a in Feed(users, projects, ps, ts) ==> FromStore(users, projects, tasks, a)
  {
    RowsJoinable(users, projects, tasks, ps, ts);
    FeedSorted(users, projects, ps, ts);
    FeedFromStore(users, projects, tasks, ps, ts);
  }

  /** Rows fetched from a foreign-key-consistent store can be joined. */
  lemma RowsJoinable(users: map<Id, User>, projects: map<Id, Project>, tasks: map<Id, Task>,
                     ps: seq<Project>, ts: seq<Task>)
    requires multiset(ps) == multiset(projects.Values) && multiset(ts) == multiset(tasks.Values)
    requires forall k :: k in projects ==> projects[k].userId in users
    requires forall k :: k in tasks ==> tasks[k].projectId in projects && tasks[k].assignedUserId in users
    ensures (forall p :: p in ps ==> p in projects.Values) && (forall t :: t in ts ==> t in tasks.Values)
    ensures Joinable(users, projects, ps, ts)
  {
    forall p | p in ps ensures p in projects.Values {
      assert p in multiset(ps);
    }
    forall t | t in ts ensures t in tasks.Values {
      assert t in multiset(ts);
    }
  }

  /** Every entry of a feed over fetched rows comes from a stored record. */
  lemma FeedFromStore(users: map<Id, User>, projects: map<Id, Project>, tasks: map<Id, Task>,
                      ps: seq<Project>, ts: seq<Task>)
    requires (forall p :: p in ps ==> p in projects.Values) && (forall t :: t in ts ==> t in tasks.Values)
    requires Joinable(users, projects, ps, ts)
    ensures forall a :: a in Feed(users, projects, ps, ts) ==> FromStore(users, projects, tasks, a)
  {
    forall a | a in Feed(users, projects, ps, ts) ensures FromStore(users, projects, tasks, a) {
      CandidatesFrom(users, projects, ps, ts, a);
    }
  }

  /** The feed is newest first. */
  lemma FeedSorted(users: map<Id, User>, projects: map<Id, Project>, ps: seq<Project>, ts: seq<Task>)
    requires Joinable(users, projects, ps, ts)
    ensures Sorting.SortedDesc(Feed(users, projects, ps, ts), Timestamp)
  {
    Sorting.NewestProperties(Candidates(users, projects, ps, ts), 10, Timestamp);
  }

  /** `a` is the entry of a stored project, joined with its owner, or of a
      stored task, joined with its assignee and project. */
  predicate FromStore(users: map<Id, User>, projects: map<Id, Project>, tasks: map<Id, Task>, a: Activity) {
    || (exists p :: p in projects.Values && p.userId in users && a == ProjectActivity(p, users[p.userId]))
    || (exists t :: t in tasks.Values && t.assignedUserId in users && t.projectId in projects &&
          a == TaskActivity(t, users[t.assignedUserId], projects[t.projectId]))
  }
}
