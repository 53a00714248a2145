/** The task list of the project details page: the project's tasks in
    three status columns, with drag and drop that changes a task's status
    only once the server has accepted it. */
module TaskList {
  import opened Wrappers
  import opened Views

  /** The columns rendered are exactly the three standard statuses, and a
      task with one of those statuses is in its own column and in no other. */
  lemma {:induction false} ExactlyOneColumn(tasks: seq<TaskCard>, t: TaskCard, s: string)
    requires t in tasks && t.status in BoardStatuses && s in BoardStatuses
    ensures t in WithStatus(tasks, s) <==> s == t.status
  {
    var i :| 0 <= i < |tasks| && tasks[i] == t;
    if t in WithStatus(tasks, s) {
      var j :| 0 <= j < |WithStatus(tasks, s)| && WithStatus(tasks, s)[j] == t;
    }
  }

  /** The list after a successful drop: the dragged task (every task with
      that id) gets the destination status. */
  function Relabel(tasks: seq<TaskCard>, id: string, status: string): (r: seq<TaskCard>)
    ensures |r| == |tasks|
    ensures forall i :: 0 <= i < |r| ==> r[i].id == tasks[i].id
    ensures forall i :: 0 <= i < |r| && tasks[i].id != id ==> r[i] == tasks[i]
    ensures forall i :: 0 <= i < |r| && tasks[i].id == id ==> r[i] == tasks[i].(status := status)
  {
    seq(|tasks|, i requires 0 <= i < |tasks| =>
      if tasks[i].id == id then tasks[i].(status := status) else tasks[i])
  }

  /** Relabelling to the same status twice is relabelling once. */
  lemma RelabelIdempotent(tasks: seq<TaskCard>, id: string, status: string)
    ensures Relabel(Relabel(tasks, id, status), id, status) == Relabel(tasks, id, status)
  {
  }

  /** After relabelling, the dragged task shows in the destination column and
      in no other; every other task stays in its column. */
  lemma RelabelColumns(tasks: seq<TaskCard>, id: string, status: string, s: string, i: nat)
    requires i < |tasks|
    ensures var t := Relabel(tasks, id, status)[i];
      t in WithStatus(Relabel(tasks, id, status), s) <==>
      (if tasks[i].id == id then s == status else s == tasks[i].status)
  {
    var r := Relabel(tasks, id, status);
    var c := WithStatus(r, s);
    if r[i] in c {
      var j :| 0 <= j < |c| && c[j] == r[i];
    }
  }

  /** A drop location: a column key and a position in it. */
  datatype Location = Location(droppableId: string, index: nat)

  /** What the drag-and-drop library passes to `onDragEnd`. */
  datatype DropResult = DropResult(draggableId: string, source: Location, destination: Option<Location>)

  class ProjectTaskList {
    const projectId: string
    var tasks: seq<TaskCard>

    constructor (projectId: string)
      ensures this.projectId == projectId && tasks == []
    {
      this.projectId := projectId;
      tasks := [];
    }

    /** `fetchTasks`; `None` stands for a failed request, which keeps the list. */
    method FetchTasks(response: Option<seq<TaskCard>>)
      modifies this
      ensures tasks == if response.Some? then response.value else old(tasks)
    {
      if response.Some? {
        tasks := response.value;
      }
    }

    /** `handleDragEnd`. `putSucceeds` is the outcome of the status update,
        whose request is returned; on success the parent page is told to
        refresh, on failure the list is fetched again, and `refetched` is
        that fetch's outcome. */
    method HandleDragEnd(drop: DropResult, putSucceeds: bool, refetched: Option<seq<TaskCard>>)
      returns (request: Option<StatusUpdate>, notifyParent: bool)
      modifies this
      ensures drop.destination.None? ==> request.None? && !notifyParent && tasks == old(tasks)
      ensures drop.destination.Some? ==>
        && request == Some(StatusUpdate(drop.draggableId, drop.destination.value.droppableId))
        && notifyParent == putSucceeds
        && tasks == if putSucceeds then Relabel(old(tasks), drop.draggableId, drop.destination.value.droppableId)
                    else if refetched.Some? then refetched.value
                    else old(tasks)
    {
      if drop.destination.None? {
        return None, false;
      }
      var status := drop.destination.value.droppableId;
      request := Some(StatusUpdate(drop.draggableId, status));
      notifyParent := putSucceeds;
      if putSucceeds {
        tasks := Relabel(tasks, drop.draggableId, status);
      } else {
        FetchTasks(refetched);
      }
    }
  }
}
