/** The project list: a search over name and description, a status
    filter, and deletion. */
module ProjectList {
  import opened Wrappers
  import Text
  import Seqs

  /** A project as the list receives it; `status` is a plain string. */
  datatype ProjectCard = ProjectCard(id: string, name: string, description: string, status: string)

  /** Whether a project passes the search box and the status selector. */
  predicate Matches(query: string, statusFilter: string, p: ProjectCard) {
    && (Text.Contains(Text.Lower(p.name), Text.Lower(query))
        || Text.Contains(Text.Lower(p.description), Text.Lower(query)))
    && (statusFilter == "all" || p.status == statusFilter)
  }

  function MatchesBy(query: string, statusFilter: string): ProjectCard -> bool {
    (p: ProjectCard) => Matches(query, statusFilter, p)
  }

  /** `filteredProjects`. */
  function FilteredProjects(projects: seq<ProjectCard>, query: string, statusFilter: string): (r: seq<ProjectCard>)
    ensures |r| <= |projects|
    ensures forall i :: 0 <= i < |r| ==> r[i] in projects && Matches(query, statusFilter, r[i])
    ensures forall i :: 0 <= i < |projects| && Matches(query, statusFilter, projects[i]) ==> projects[i] in r
  {
    Seqs.Filter(projects, MatchesBy(query, statusFilter))
  }

  /** The filter keeps the order of the projects it shows. */
  lemma FilteredProjectsKeepOrder(projects: seq<ProjectCard>, query: string, statusFilter: string)
    ensures Seqs.IsSubsequence(FilteredProjects(projects, query, statusFilter), projects)
  {
    Seqs.FilterIsSubsequence(projects, MatchesBy(query, statusFilter));
  }

  /** An empty search with the filter on "all" shows every project. */
  lemma NoFilterShowsAll(projects: seq<ProjectCard>)
    ensures FilteredProjects(projects, "", "all") == projects
  {
    forall i | 0 <= i < |projects| ensures MatchesBy("", "all")(projects[i]) {
      Text.ContainsEmpty(Text.Lower(projects[i].name));
    }
    Seqs.FilterKeepsAll(projects, MatchesBy("", "all"));
  }

  function IdIsNot(id: string): ProjectCard -> bool {
    (p: ProjectCard) => p.id != id
  }

  /** `projects.filter(project => project.id !== id)`. */
  function WithoutId(projects: seq<ProjectCard>, id: string): (r: seq<ProjectCard>)
    ensures forall i :: 0 <= i < |r| ==> r[i] in projects && r[i].id != id
    ensures forall i :: 0 <= i < |projects| && projects[i].id != id ==> projects[i] in r
  {
    Seqs.Filter(projects, IdIsNot(id))
  }

  /** Deleting keeps the other projects in order, and deleting an id that
      is not listed changes nothing. */
  lemma WithoutIdProperties(projects: seq<ProjectCard>, id: string)
    ensures Seqs.IsSubsequence(WithoutId(projects, id), projects)
    ensures (forall i :: 0 <= i < |projects| ==> projects[i].id != id) ==> WithoutId(projects, id) == projects
    ensures WithoutId(WithoutId(projects, id), id) == WithoutId(projects, id)
  {
    Seqs.FilterIsSubsequence(projects, IdIsNot(id));
    Seqs.FilterIdempotent(projects, IdIsNot(id));
    if forall i :: 0 <= i < |projects| ==> projects[i].id != id {
      Seqs.FilterKeepsAll(projects, IdIsNot(id));
    }
  }

  class ProjectListView {
    var projects: seq<ProjectCard>

    constructor ()
      ensures projects == []
    {
      projects := [];
    }

    /** `fetchProjects`; `None` stands for a failed request, which keeps the list. */
    method FetchProjects(response: Option<seq<ProjectCard>>)
      modifies this
      ensures projects == if response.Some? then response.value else old(projects)
    {
      if response.Some? {
        projects := response.value;
      }
    }

    /** `deleteProject(id)`: the list changes only when `DELETE /projects/:id` succeeds. */
    method DeleteProject(id: string, deleteSucceeds: bool)
      modifies this
      ensures projects == if deleteSucceeds then WithoutId(old(projects), id) else old(projects)
    {
      if deleteSucceeds {
        projects := WithoutId(projects, id);
      }
    }
  }
}
