/** The shapes the browser client works with, as it receives them from the
    server's JSON, and the helpers two or more pages share. */
module Views {
  import Seqs

  /** A task as a kanban card: `status` and the ids are plain strings on
      the client, and `assigneeId` is `assignedUser.id`. */
  datatype TaskCard = TaskCard(id: string, title: string, status: string, assigneeId: string, projectId: string)

  /** The body of `PUT /tasks/:id` sent after a drop: `{ status }`. */
  datatype StatusUpdate = StatusUpdate(taskId: string, status: string)

  /** The three kanban columns every board shows. */
  const BoardStatuses: set<string> := {"TODO", "IN_PROGRESS", "DONE"}

  function HasStatus(s: string): TaskCard -> bool {
    (t: TaskCard) => t.status == s
  }

  /** `tasks.filter(task => task.status === s)`: a column of the board,
      and `getColumnTasks(s)` of the project task list. */
  function WithStatus(tasks: seq<TaskCard>, s: string): (r: seq<TaskCard>)
    ensures |r| <= |tasks|
    ensures forall i :: 0 <= i < |r| ==> r[i] in tasks && r[i].status == s
    ensures forall i :: 0 <= i < |tasks| && tasks[i].status == s ==> tasks[i] in r
  {
    Seqs.Filter(tasks, HasStatus(s))
  }

  /** A column keeps the order of the tasks it holds. */
  lemma WithStatusKeepsOrder(tasks: seq<TaskCard>, s: string)
    ensures Seqs.IsSubsequence(WithStatus(tasks, s), tasks)
  {
    Seqs.FilterIsSubsequence(tasks, HasStatus(s));
  }

  /** A status nobody has yields an empty column. */
  lemma WithStatusAbsent(tasks: seq<TaskCard>, s: string)
    requires forall i :: 0 <= i < |tasks| ==> tasks[i].status != s
    ensures WithStatus(tasks, s) == []
  {
    Seqs.FilterNone(tasks, HasStatus(s));
  }

  const PlannedColor := "bg-blue-100 text-blue-800 dark:bg-blue-900 dark:text-blue-300"
  const OngoingColor := "bg-yellow-100 text-yellow-800 dark:bg-yellow-900 dark:text-yellow-300"
  const CompletedColor := "bg-green-100 text-green-800 dark:bg-green-900 dark:text-green-300"
  const DefaultColor := "bg-gray-100 text-gray-800 dark:bg-gray-900 dark:text-gray-300"

  /** `getStatusColor`, written identically in the project list and the
      project details page. */
  function StatusColor(status: string): (c: string)
    ensures status == "PLANNED" ==> c == PlannedColor
    ensures status == "ONGOING" ==> c == OngoingColor
    ensures status == "COMPLETED" ==> c == CompletedColor
    ensures status !in {"PLANNED", "ONGOING", "COMPLETED"} ==> c == DefaultColor
  {
    match status
    case "PLANNED" => PlannedColor
    case "ONGOING" => OngoingColor
    case "COMPLETED" => CompletedColor
    case _ => DefaultColor
  }

  /** The three project statuses get three different colours, none of them the default. */
  lemma StatusColorsDistinct(a: string, b: string)
    requires a in {"PLANNED", "ONGOING", "COMPLETED"} && b in {"PLANNED", "ONGOING", "COMPLETED"}
    ensures StatusColor(a) == StatusColor(b) <==> a == b
    ensures StatusColor(a) != DefaultColor
  {
  }
}
