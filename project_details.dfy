/** The project details page: the task statistics shown for a project and
    the status change it requests. */
module ProjectDetails {
  import opened Wrappers
  import opened Entities
  import Seqs
  import ProjectRoutes

  function IsDone(t: Task): bool {
    t.status == Done
  }

  /** `project.tasks.filter(task => task.status === 'DONE').length`. */
  function CompletedCount(tasks: seq<Task>): (n: nat)
    ensures n == |set i | 0 <= i < |tasks| && tasks[i].status == Done|
    ensures n <= |tasks|
  {
    Seqs.CountPositions(tasks, IsDone);
    assert Seqs.Positions(tasks, IsDone) == set i | 0 <= i < |tasks| && tasks[i].status == Done;
    Seqs.Count(tasks, IsDone)
  }

  /** The completed count is zero exactly when no task is done, and equals
      the task count exactly when every task is. */
  lemma {:induction false} CompletedCountExtremes(tasks: seq<Task>)
    ensures CompletedCount(tasks) == 0 <==> forall i :: 0 <= i < |tasks| ==> tasks[i].status != Done
    ensures CompletedCount(tasks) == |tasks| <==> forall i :: 0 <= i < |tasks| ==> tasks[i].status == Done
    decreases |tasks|
  {
    if tasks != [] {
      CompletedCountExtremes(tasks[1..]);
      assert forall i :: 1 <= i < |tasks| ==> tasks[i] == tasks[1..][i - 1];
    }
  }

  /** `new Set(project.tasks.map(task => task.assignedUserId))`. */
  function Assignees(tasks: seq<Task>): (r: set<Id>)
    ensures |r| <= |tasks|
    ensures r == {} <==> tasks == []
    ensures forall u :: u in r <==> exists i :: 0 <= i < |tasks| && tasks[i].assignedUserId == u
    decreases |tasks|
  {
    if tasks == [] then {}
    else
      var rest := Assignees(tasks[1..]);
      assert forall u :: u in rest ==> exists i :: 0 <= i < |tasks| && tasks[i].assignedUserId == u by {
        forall u | u in rest ensures exists i :: 0 <= i < |tasks| && tasks[i].assignedUserId == u {
          var j :| 0 <= j < |tasks[1..]| && tasks[1..][j].assignedUserId == u;
          assert tasks[j + 1].assignedUserId == u;
        }
      }
      assert forall i :: 1 <= i < |tasks| ==> tasks[i] == tasks[1..][i - 1];
      {tasks[0].assignedUserId} + rest
  }

  /** The team-member count: at most the number of tasks, and zero exactly
      when the project has no tasks. */
  function TeamMemberCount(tasks: seq<Task>): (n: nat)
    ensures n <= |tasks|
    ensures n == 0 <==> tasks == []
  {
    |Assignees(tasks)|
  }

  /** The page's state: the fetched project with its tasks, while loaded. */
  class ProjectDetailsView {
    const id: Id
    var project: Option<ProjectRoutes.ProjectWithTasks>

    constructor (id: Id)
      ensures this.id == id && project.None?
    {
      this.id := id;
      project := None;
    }

    /** `fetchProject`; `None` stands for a failed request, which keeps the page. */
    method FetchProject(response: Option<ProjectRoutes.ProjectWithTasks>)
      modifies this
      ensures project == if response.Some? then response else old(project)
    {
      if response.Some? {
        project := response;
      }
    }

    /** `updateProjectStatus(status)`: sends a body holding only the status,
        and re-fetches the project only when the update succeeds; `refetched`
        is that fetch's outcome. */
    method UpdateProjectStatus(status: string, putSucceeds: bool, refetched: Option<ProjectRoutes.ProjectWithTasks>)
      returns (body: ProjectRoutes.ProjectBody)
      modifies this
      ensures body == ProjectRoutes.ProjectBody(Absent, Absent, JsonString(status))
      ensures project == if putSucceeds && refetched.Some? then refetched else old(project)
    {
      body := ProjectRoutes.ProjectBody(Absent, Absent, JsonString(status));
      if putSucceeds {
        FetchProject(refetched);
      }
    }
  }

  /** The page's status request can only change the status: the server
      accepts it exactly for the three statuses, and then leaves the name
      and description alone. */
  lemma StatusRequestChangesOnlyStatus(p: Project, status: string)
    ensures var patch := ProjectRoutes.ParseProjectPatch(ProjectRoutes.ProjectBody(Absent, Absent, JsonString(status)));
      && (patch.Some? <==> status in {"PLANNED", "ONGOING", "COMPLETED"})
      && (patch.Some? ==>
            var q := ProjectRoutes.ApplyProjectPatch(p, patch.value);
            q == p.(status := q.status) && ProjectStatusName(q.status) == status)
  {
  }
}
