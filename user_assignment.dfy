/** The team-member picker of a project: the users not yet assigned, and
    the assignment request. */
module UserAssignment {
  import opened Wrappers
  import Seqs

  /** A user as the picker receives it. */
  datatype Person = Person(id: string, name: string, email: string)

  /** `assignedUsers.find(assigned => assigned.id === id)` finds someone. */
  predicate IsAssigned(assignedUsers: seq<Person>, id: string) {
    exists i :: 0 <= i < |assignedUsers| && assignedUsers[i].id == id
  }

  function UnassignedBy(assignedUsers: seq<Person>): Person -> bool {
    (u: Person) => !IsAssigned(assignedUsers, u.id)
  }

  /** The options of the picker. */
  function Candidates(users: seq<Person>, assignedUsers: seq<Person>): (r: seq<Person>)
    ensures forall i, j :: 0 <= i < |r| && 0 <= j < |assignedUsers| ==> r[i].id != assignedUsers[j].id
    ensures forall i :: 0 <= i < |r| ==> r[i] in users
    ensures forall i :: 0 <= i < |users| && !IsAssigned(assignedUsers, users[i].id) ==> users[i] in r
  {
    var r := Seqs.Filter(users, UnassignedBy(assignedUsers));
    assert forall i :: 0 <= i < |r| ==> !IsAssigned(assignedUsers, r[i].id) by {
      forall i | 0 <= i < |r| ensures !IsAssigned(assignedUsers, r[i].id) {
        assert UnassignedBy(assignedUsers)(r[i]);
      }
    }
    r
  }

  /** The candidates keep the users' order, and with nobody assigned every
      user is a candidate. */
  lemma CandidatesProperties(users: seq<Person>, assignedUsers: seq<Person>)
    ensures Seqs.IsSubsequence(Candidates(users, assignedUsers), users)
    ensures assignedUsers == [] ==> Candidates(users, assignedUsers) == users
  {
    Seqs.FilterIsSubsequence(users, UnassignedBy(assignedUsers));
    if assignedUsers == [] {
      Seqs.FilterKeepsAll(users, UnassignedBy(assignedUsers));
    }
  }

  /** The body of `POST /projects/:projectId/users`: `{ userId }`. */
  datatype AssignRequest = AssignRequest(projectId: string, userId: string)

  class AssignmentView {
    const projectId: string
    var users: seq<Person>
    var assignedUsers: seq<Person>

    constructor (projectId: string)
      ensures this.projectId == projectId && users == [] && assignedUsers == []
    {
      this.projectId := projectId;
      users := [];
      assignedUsers := [];
    }

    /** `fetchUsers`; `None` stands for a failed request. */
    method FetchUsers(response: Option<seq<Person>>)
      modifies this
      ensures users == if response.Some? then response.value else old(users)
      ensures assignedUsers == old(assignedUsers)
    {
      if response.Some? {
        users := response.value;
      }
    }

    /** `fetchAssignedUsers`; `None` stands for a failed request. */
    method FetchAssignedUsers(response: Option<seq<Person>>)
      modifies this
      ensures assignedUsers == if response.Some? then response.value else old(assignedUsers)
      ensures users == old(users)
    {
      if response.Some? {
        assignedUsers := response.value;
      }
    }

    /** `assignUser(userId)`: only a successful request re-fetches the
        assigned users (`refetched` is that fetch's outcome) and tells the
        parent page to refresh. */
    method AssignUser(userId: string, postSucceeds: bool, refetched: Option<seq<Person>>)
      returns (request: AssignRequest, notifyParent: bool)
      modifies this
      ensures request == AssignRequest(projectId, userId)
      ensures notifyParent == postSucceeds
      ensures assignedUsers == if postSucceeds && refetched.Some? then refetched.value else old(assignedUsers)
      ensures users == old(users)
    {
      request := AssignRequest(projectId, userId);
      notifyParent := postSucceeds;
      if postSucceeds {
        FetchAssignedUsers(refetched);
      }
    }
  }
}
