# ProjectHub in Dafny

ProjectHub is a small project-management application. An Express server
keeps users, projects and tasks in a database. A React client shows them
as a project list, a project details page, a team page and a kanban board.

This project models that application's behaviour:

- **The server's route handlers.** The task, project, user and dashboard
  routers are methods on a `Store.Db` object holding the `users`,
  `projects` and `tasks` tables as maps keyed by id.
  - Each handler returns a `Response` outcome: 200, 201, 204, 400, 401,
    403, 404, or 500 for an exception handed to the error middleware.
  - Each handler changes the tables only as its contract says. A refusal
    changes nothing.
  - The store's invariant `Db.Valid` holds throughout: every row is keyed
    by its id, emails are unique, and every foreign key resolves.
- **The client's persisted authentication store.** It is a class with the
  three fields `user`, `token` and `isAuthenticated`. Their invariant is
  that `isAuthenticated` holds exactly when a token is held.
- **The client views.**
  - the kanban board's grouping, search filter, drag-and-drop move and
    rollback;
  - the project task list's columns and status relabelling;
  - the project list's search and deletion;
  - the project details statistics and status change;
  - the team search and counts;
  - the team-member picker.

  Pure view logic is written as functions over sequences. A component's
  state is a class whose methods take the outcome of each server request
  as a parameter.

Shared pieces:

- `Text`: lowercasing, `includes`, the schema library's `uuid()` and `email()` shapes, the JavaScript string length in UTF-16 code units, and UTF-8 encoding.
- `Seqs`: array `filter` and `splice`.
- `Sorting`: newest-first ordering and `take`.
- `Crypto`: bcrypt's 72-byte key and comparison, and JWT claims.

All source paths below are relative to the repository root.

## Model

| member | source | states |
|---|---|---|
| Entities.ParseTaskStatus | src/server/routes/task.routes.ts:10 | exactly the three literals TODO, IN_PROGRESS and DONE parse, each to the status whose wire name it is |
| Entities.TaskStatusRoundTrip | src/server/routes/task.routes.ts:10 | parsing a status's wire name gives the status back |
| Entities.ParseProjectStatus | src/server/routes/project.routes.ts:10 | exactly PLANNED, ONGOING and COMPLETED parse, each to the status whose wire name it is |
| Entities.ProjectStatusRoundTrip | src/server/routes/project.routes.ts:10 | parsing a project status's wire name gives the status back |
| Entities.View | src/server/routes/user.routes.ts:27-32 | the user projection is exactly id, name, email and createdAt, with no password |
| Crypto.Hash | src/server/routes/user.routes.ts:20 | the digest is made with cost factor 10 |
| Crypto.CompareHash | src/server/routes/user.routes.ts:52 | a digest matches the password it was made from; among passwords of fewer than 72 UTF-8 bytes without NUL it matches only that one |
| Crypto.Key | src/server/routes/user.routes.ts:52 | the key bcrypt reads is 72 bytes: the UTF-8 bytes with a terminating zero when shorter, the first 72 UTF-8 bytes otherwise |
| Crypto.CompareIgnoresPast72 | src/server/routes/user.routes.ts:52 | two passwords whose first 72 UTF-8 bytes agree match each other's digest |
| Crypto.LongPasswordsCollide | src/server/routes/user.routes.ts:52 | 72 `a`s then `1` matches the digest of 72 `a`s then `2` |
| Crypto.Sign | src/server/routes/user.routes.ts:35-39 | a token carries the user's id and email |
| Text.Lower | src/pages/TasksPage.tsx:118 | lowercasing keeps the length and lowercases each character |
| Text.ContainsIffOccurs | src/pages/TasksPage.tsx:118 | `includes` holds exactly when the query occurs at some offset of the string |
| Text.ContainsEmpty | src/components/projects/ProjectList.tsx:53-54 | every string includes the empty query |
| Text.EmailHasOneAt | src/server/routes/user.routes.ts:12 | an accepted email holds exactly one `@` |
| Text.Utf16Length | src/server/routes/task.routes.ts:8 | the JavaScript length lies between the character count and twice it |
| Text.Utf16LengthBmp | src/server/routes/task.routes.ts:8 | the JavaScript length equals the character count exactly when no character lies above U+FFFF |
| Text.Utf16LengthEmoji | src/server/routes/task.routes.ts:8 | one emoji is one character but has JavaScript length 2 |
| Text.Utf8CharDecodes | src/server/routes/user.routes.ts:52 | a character's UTF-8 bytes announce their count in the first byte and decode back to the character |
| Text.Utf8Injective | src/server/routes/user.routes.ts:52 | distinct strings have distinct UTF-8 encodings |
| Seqs.Filter | src/components/projects/TaskList.tsx:59 | the result is no longer than the input, keeps only elements satisfying the predicate, and keeps every element that does |
| Seqs.Count | src/pages/ProjectDetailsPage.tsx:146 | `filter(p).length` is at most the length |
| Seqs.CountPositions | src/pages/ProjectDetailsPage.tsx:146 | `filter(p).length` is the number of positions whose element passes `p` |
| Seqs.RemoveAt | src/pages/TasksPage.tsx:90 | `splice(i, 1)` removes exactly the element at i, shifting the rest down, and the multiset loses exactly that element |
| Seqs.InsertAt | src/pages/TasksPage.tsx:91 | `splice(i, 0, x)` puts x at i (at the end when i is past it), shifting the rest up, and the multiset gains exactly x |
| Seqs.InsertRemoved | src/pages/TasksPage.tsx:90-91 | removing the element at i and reinserting it at i restores the list |
| Seqs.RemoveInserted | src/pages/TasksPage.tsx:90-91 | inserting at i and removing at i restores the list |
| Sorting.SortDesc | src/server/routes/dashboard.routes.ts:67 | the sort is a permutation of its input |
| Sorting.SortDescSorted | src/server/routes/dashboard.routes.ts:67 | the sort's result has non-increasing timestamps |
| Sorting.Take | src/server/routes/dashboard.routes.ts:68 | `slice(0, n)` is the prefix of length min(n, length) |
| Sorting.Newest | src/server/routes/dashboard.routes.ts:41-43 | `take: n` after `orderBy desc` gives at most n elements, all drawn from the input |
| Sorting.NewestProperties | src/server/routes/dashboard.routes.ts:41-43 | the newest n have size min(n, length) and are sorted newest first; together with the rest they make up the input; none is older than an element left out |
| Store.ProjectAccess | src/server/routes/project.routes.ts:69-75 | the project lookup gives 404 exactly for an unknown id, and gives 403 exactly for a known id whose owner is not the caller |
| Store.Refusal | src/server/routes/project.routes.ts:69-75 | a missing project answers NotFound and a foreign one answers Forbidden |
| Store.TasksOf | src/server/routes/project.routes.ts:32-34 | a project's `tasks` relation is exactly the stored tasks with that projectId |
| Store.Db.FindUserByEmail | src/server/routes/user.routes.ts:50 | the lookup finds a user exactly when one has the email, and returns the stored row with that email |
| TaskRoutes.ParseTask | src/server/routes/task.routes.ts:7-17 | a body passes exactly when every field is a string, the title has JavaScript length (UTF-16 code units) at least 2, the status is one of the three, and both ids are UUIDs; a missing field or a number, boolean or `null` in any field is refused; the input then carries the submitted strings |
| TaskRoutes.ParseTaskPatch | src/server/routes/task.routes.ts:84 | a partial body passes exactly when no field holds a non-string value and every present field is valid (title of JavaScript length at least 2, status in the enumeration, UUIDs); the patch carries exactly the present fields |
| TaskRoutes.FullBodyIsPatch | src/server/routes/task.routes.ts:84 | a body the full schema accepts is also a patch, and applying it overwrites every writable field |
| TaskRoutes.ApplyTaskPatch | src/server/routes/task.routes.ts:99-103 | fields present in the patch are overwritten; the others, the id and the creation time are kept |
| TaskRoutes.PatchLaws | src/server/routes/task.routes.ts:99-103 | an empty patch changes nothing, and applying a patch twice equals applying it once |
| TaskRoutes.Policy | src/server/routes/task.routes.ts:95-132 | the owner may update and delete; an assignee who is not the owner may update but never delete; anyone else may do neither |
| TaskRoutes.Create | src/server/routes/task.routes.ts:15-49 | an invalid body gives 400; an unknown project gives 404 before another owner's project gives 403; an unknown assignee is refused by the foreign key; otherwise exactly one task with the submitted fields is added under the fresh id and nothing else changes. It keeps `Db.Valid`, and every refusal leaves the tables unchanged. |
| TaskRoutes.Matching | src/server/routes/task.routes.ts:55-63 | a task is listed exactly when it is stored, its project belongs to the caller, and it matches every supplied filter |
| TaskRoutes.MatchingMonotone | src/server/routes/task.routes.ts:53-63 | filters only narrow; with no filter the result is every task of the caller's projects |
| TaskRoutes.List | src/server/routes/task.routes.ts:51-79 | a status filter outside the enumeration is an error; any other query answers exactly the stored tasks of the caller's projects that match every supplied filter, and an absent filter constrains nothing |
| TaskRoutes.Update | src/server/routes/task.routes.ts:81-117 | an invalid patch gives 400 and an unknown id 404; the update is refused (403) unless the caller owns the task's project or is its assignee; a patch whose ids do not resolve is refused; otherwise only that task changes, to exactly the patched fields (even to a project the caller does not own). It keeps `Db.Valid`, and every refusal leaves the tables unchanged. |
| TaskRoutes.Delete | src/server/routes/task.routes.ts:119-143 | an unknown id gives 404; the delete is refused (403) unless the caller owns the task's project; success removes exactly that task and answers 204. It keeps `Db.Valid`, and every refusal leaves the tables unchanged. |
| TaskRoutes.MountedRouteLeaksOtherProjects | src/server/index.ts:30 | as mounted, a project's task list can contain a task of another project |
| TaskRoutes.ProjectTasksQueryIsScoped | src/server/routes/task.routes.ts:53-63 | filtering by the path's project yields exactly that project's tasks for its owner, and nothing for anyone else |
| ProjectRoutes.ParseProject | src/server/routes/project.routes.ts:7-15 | a body passes exactly when all three fields are strings, the name has JavaScript length (UTF-16 code units) at least 2 and the status is one of the three; the input carries the submitted strings |
| ProjectRoutes.ParseProjectPatch | src/server/routes/project.routes.ts:86 | a partial body passes exactly when no field holds a non-string value, a present name has JavaScript length at least 2 and a present status is one of the three; the patch carries exactly the present fields |
| ProjectRoutes.StatusOnlyPatch | src/server/routes/project.routes.ts:86 | a status-only body passes exactly for the three statuses |
| ProjectRoutes.ApplyProjectPatch | src/server/routes/project.routes.ts:100-103 | present fields are overwritten; the id, owner and creation time never change |
| ProjectRoutes.Create | src/server/routes/project.routes.ts:13-26 | an invalid body gives 400; otherwise exactly one project with the submitted fields is added, and its owner is the caller. It keeps `Db.Valid`, and every refusal leaves the tables unchanged. |
| ProjectRoutes.List | src/server/routes/project.routes.ts:28-40 | the result is exactly the caller's projects, each with exactly its tasks |
| ProjectRoutes.Get | src/server/routes/project.routes.ts:42-81 | 404 exactly for an unknown id; 403 exactly for another owner's project; otherwise the project with its tasks |
| ProjectRoutes.Update | src/server/routes/project.routes.ts:83-108 | an invalid patch gives 400, then 404 before 403; otherwise only that project changes, to exactly the patched fields. It keeps `Db.Valid`, and every refusal leaves the tables unchanged. |
| ProjectRoutes.Delete | src/server/routes/project.routes.ts:110-133 | 404 before 403; success answers 204 and removes the project with its tasks (cascading rule), while a restricting rule refuses a project that still has tasks. It keeps `Db.Valid`, and every refusal leaves the tables unchanged. |
| ProjectRoutes.TimelineEntry | src/server/routes/project.routes.ts:163-171 | an event has id "task-"+task id, kind TASK_CREATED, the task's creation time and the assignee's name |
| ProjectRoutes.TimelineOf | src/server/routes/project.routes.ts:163-171 | the mapped timeline has one entry per task, in the same order |
| ProjectRoutes.TimelineProperties | src/server/routes/project.routes.ts:143-171 | whatever order the rows come in, the timeline has exactly one event per task, every event comes from a task, and the events are newest first |
| ProjectRoutes.Timeline | src/server/routes/project.routes.ts:136-177 | 404 exactly for an unknown id, 403 exactly for another owner's project; otherwise exactly one TASK_CREATED event per task of the project, each from a task of the project, newest first |
| ProjectRoutes.AssignedUsersAsWritten | src/server/routes/project.routes.ts:184-206 | at most one entry per task; each entry is a stored user row assigned to one of the project's tasks; every resolving assignee is listed |
| ProjectRoutes.AssignedUsersExposeDigest | src/server/routes/project.routes.ts:186-208 | as written, each listed user carries the stored password digest |
| ProjectRoutes.AssignedUsersExposeDigestExample | src/server/routes/project.routes.ts:186-208 | a one-task project lists its assignee together with the digest of that assignee's password |
| ProjectRoutes.AssignedUsers | src/server/routes/project.routes.ts:203-206 | corrected: as above, but each entry is the password-free projection |
| ProjectRoutes.Users | src/server/routes/project.routes.ts:180-212 | corrected: 404 and 403 as above; otherwise the password-free projection of every assignee of the project's tasks, at most one entry per task, and nobody else. The route as written sends `ProjectRoutes.AssignedUsersAsWritten` instead, the full user rows with the password digest |
| ProjectRoutes.AssignmentTask | src/server/routes/project.routes.ts:234-242 | the placeholder task is titled "Project Assignment", has status TODO, and links the project to the user |
| ProjectRoutes.Assign | src/server/routes/project.routes.ts:215-248 | 404 before 403; a missing or unknown `userId` is refused; otherwise exactly the placeholder task for that user is added and the answer is 201. It keeps `Db.Valid`, and every refusal leaves the tables unchanged. |
| UserRoutes.ParseUser | src/server/routes/user.routes.ts:10-19 | a body passes exactly when all three fields are strings, the name has JavaScript length (UTF-16 code units) at least 2, the email is well formed and the password has JavaScript length at least 6; the input carries the submitted strings |
| UserRoutes.PayloadFor | src/server/routes/user.routes.ts:56-70 | the response holds the password-free projection and a token carrying the user's id and email |
| UserRoutes.Register | src/server/routes/user.routes.ts:17-45 | an invalid body gives 400 and a taken email is refused by the unique key; otherwise exactly one user storing the digest of the password is added, and the answer is that user's projection and token. It keeps `Db.Valid`, and every refusal leaves the tables unchanged. |
| UserRoutes.Login | src/server/routes/user.routes.ts:47-74 | with both fields present, success holds exactly when some user has the email and the password matches that user's digest; an unknown email gives 401, and so does a wrong password for a known email; a missing email, or a missing password for a known email, is an error; a success answers that user's projection and token |
| UserRoutes.PayloadIgnoresDigest | src/server/routes/user.routes.ts:62-68 | the login and registration answer does not depend on the stored digest |
| UserRoutes.ListingOf | src/server/routes/user.routes.ts:79-98 | a listing holds the user's id, name, email and creation time, exactly the projects the user owns, and exactly the tasks assigned to the user |
| UserRoutes.ListingIgnoresDigest | src/server/routes/user.routes.ts:79-98 | the listing does not depend on the stored digest, so it cannot expose it |
| UserRoutes.ListUsers | src/server/routes/user.routes.ts:77-104 | the result has exactly one listing per stored user |
| UserRoutes.ChangePassword | src/server/routes/user.routes.ts:106-128 | an unknown caller or a wrong current password gives 401 and leaves every digest unchanged; a missing argument is an error; success replaces only the caller's digest, with the digest of the new password. It keeps `Db.Valid`, and every refusal leaves the tables unchanged. |
| UserRoutes.ChangedPasswordLogsIn | src/server/routes/user.routes.ts:118-121 | after a change the new password matches the stored digest; among passwords of fewer than 72 UTF-8 bytes without NUL it is the only one |
| DashboardRoutes.CompletedProjects | src/server/routes/dashboard.routes.ts:16-18 | exactly the projects with status COMPLETED |
| DashboardRoutes.DoneTasks | src/server/routes/dashboard.routes.ts:20-22 | exactly the tasks with status DONE |
| DashboardRoutes.StatsOf | src/server/routes/dashboard.routes.ts:14-32 | the totals count every record, whoever asks; the completed counts are the numbers of COMPLETED projects and DONE tasks, at most the totals |
| DashboardRoutes.StatsExtremes | src/server/routes/dashboard.routes.ts:15-22 | completed counts are zero exactly when nothing is completed; they equal the totals exactly when everything is |
| DashboardRoutes.GetStats | src/server/routes/dashboard.routes.ts:6-36 | the handler answers the five counts |
| DashboardRoutes.ProjectActivity | src/server/routes/dashboard.routes.ts:55-60 | a project entry has id "project-"+id, kind PROJECT_CREATED and the project's creation time |
| DashboardRoutes.TaskActivity | src/server/routes/dashboard.routes.ts:61-66 | a task entry has id "task-"+id, kind TASK_ASSIGNED and the task's creation time |
| DashboardRoutes.ProjectEvents | src/server/routes/dashboard.routes.ts:55-60 | one project entry per recent project, in order |
| DashboardRoutes.TaskEvents | src/server/routes/dashboard.routes.ts:61-66 | one task entry per recent task, in order |
| DashboardRoutes.CandidatesFrom | src/server/routes/dashboard.routes.ts:54-66 | every merged entry belongs to one of the five newest projects or one of the five newest tasks |
| DashboardRoutes.RecentAreNewest | src/server/routes/dashboard.routes.ts:41-51 | at most five projects and five tasks are drawn, and none is older than a row left out |
| DashboardRoutes.FeedProperties | src/server/routes/dashboard.routes.ts:54-68 | the feed holds min(10, recent projects + recent tasks) entries, newest first, each taken once from the merged candidates and belonging to a recent project or task, and none older than a candidate that was cut |
| DashboardRoutes.GetActivity | src/server/routes/dashboard.routes.ts:38-74 | over the stored rows: at most ten entries, newest first, each the entry of a stored project or task |
| AuthStore.SignedOut | src/store/auth.store.ts:24-26 | the initial state is consistent and signed out |
| AuthStore.AfterSignIn | src/store/auth.store.ts:27-31 | a successful response sets user and token from the response and marks the store authenticated; a failed request leaves the state unchanged |
| AuthStore.SignInConsistent | src/store/auth.store.ts:27-40 | signing in preserves the invariant |
| AuthStore.SignInForgetsPrevious | src/store/auth.store.ts:30 | after a successful sign-in the state no longer depends on the state before it |
| AuthStore.AfterLogout | src/store/auth.store.ts:41-43 | logout clears all three fields, from any state |
| AuthStore.LogoutIdempotent | src/store/auth.store.ts:41-43 | logging out twice is logging out once, and both give the initial state |
| AuthStore.Store.constructor | src/store/auth.store.ts:24-26 | the store starts consistent and signed out |
| AuthStore.Store.Login | src/store/auth.store.ts:27-31 | the new state is the sign-in step applied to the old one; the invariant is kept |
| AuthStore.Store.Register | src/store/auth.store.ts:32-40 | register has exactly the effect of login |
| AuthStore.Store.Logout | src/store/auth.store.ts:41-43 | the new state is the logout step applied to the old one, and is consistent |
| Views.WithStatus | src/components/projects/TaskList.tsx:58-60 | a column holds only tasks of its status, and every task of its status |
| Views.WithStatusKeepsOrder | src/components/projects/TaskList.tsx:58-60 | a column keeps the order of the tasks it holds |
| Views.WithStatusAbsent | src/components/projects/TaskList.tsx:58-60 | a status nobody has yields an empty column |
| Views.StatusColor | src/pages/ProjectDetailsPage.tsx:80-91 | PLANNED, ONGOING and COMPLETED each get their class; every other value gets the gray default |
| Views.StatusColorsDistinct | src/components/projects/ProjectList.tsx:59-70 | the three statuses get three different classes, none of them the default |
| TasksPage.InitialColumns | src/pages/TasksPage.tsx:30-34 | the initial board has exactly the three empty standard columns |
| TasksPage.GroupByStatus | src/pages/TasksPage.tsx:49-58 | the columns are the three standard ones plus one per other status present; each holds exactly its status's tasks in response order |
| TasksPage.PushInTwoSteps | src/pages/TasksPage.tsx:51-54 | the reduction step (create the missing column, then push) appends the task to its status's column |
| TasksPage.ColumnSizes | src/pages/TasksPage.tsx:49-58 | the column sizes plus the count of nonstandard statuses add up to the number of tasks |
| TasksPage.StandardStatusesOnly | src/pages/TasksPage.tsx:49-58 | with only standard statuses there are exactly three columns, and their sizes sum to the response length |
| TasksPage.Visible | src/pages/TasksPage.tsx:116-120 | a rendered column holds exactly the cards whose lowercased title contains the lowercased query and, when an assignee is selected, whose assignee is that user |
| TasksPage.FilteredColumns | src/pages/TasksPage.tsx:114-124 | the filtered board has the standard columns plus the board's own, each cut down to its shown cards |
| TasksPage.FilteredColumnsKeepOrder | src/pages/TasksPage.tsx:116-120 | a filtered column is an order-preserving sublist of its column |
| TasksPage.NoFilterShowsAll | src/pages/TasksPage.tsx:114-124 | with an empty search and no assignee, the rendered board equals the board |
| TasksPage.NoFilterShowsColumn | src/pages/TasksPage.tsx:116-120 | with an empty search and no assignee, a rendered column equals the column |
| TasksPage.MoveAsWritten | src/pages/TasksPage.tsx:88-97 | as written, the move keeps the set of columns |
| TasksPage.SameColumnDuplicates | src/pages/TasksPage.tsx:88-97 | as written, a same-column reorder grows the column by one and holds the dragged card once more |
| TasksPage.Move | src/pages/TasksPage.tsx:88-97 | corrected: only the source and destination columns change; across columns the source loses the card at its index, the destination gains it at its index, and the two columns' multiset is kept; within a column the card is taken out and reinserted at the new index, so the other cards keep their order and the column keeps its size and contents |
| TasksPage.MoveAcrossColumnsAsWritten | src/pages/TasksPage.tsx:88-97 | across columns, the page's computation is the corrected move |
| TasksPage.MoveUndoAcross | src/pages/TasksPage.tsx:88-97 | dragging a card back to its old column and position restores the board |
| TasksPage.MoveUndoWithin | src/pages/TasksPage.tsx:88-97 | the same within one column |
| TasksPage.SourcePosition | src/pages/TasksPage.tsx:236-240 | a rendered index maps to the position of the same card in the full column |
| TasksPage.FilteredDragMovesOtherCard | src/pages/TasksPage.tsx:214-240 | with a search active, using the rendered index as written moves a different card; the corrected position moves the dragged one |
| TasksPage.Rollback | src/pages/TasksPage.tsx:104-110 | writing back the two touched columns restores the board before the drop |
| TasksPage.Board.constructor | src/pages/TasksPage.tsx:30-37 | the board starts with the three empty columns, an empty search and no assignee |
| TasksPage.Board.FetchTasks | src/pages/TasksPage.tsx:46-65 | a response regroups the board; a failure keeps it |
| TasksPage.Board.HandleDragEnd | src/pages/TasksPage.tsx:76-112 | no destination, or the same column and index, sends nothing and leaves the board unchanged; otherwise the request sets the dragged task's status to the destination column, the board makes the corrected move of the card the user dragged, and a failed request restores the board as it was before the drop |
| TaskList.ExactlyOneColumn | src/components/projects/TaskList.tsx:103-123 | a task with a standard status shows in its own column and no other |
| TaskList.Relabel | src/components/projects/TaskList.tsx:73-78 | the length, order and ids are kept; the dragged task gets the new status; every other task is unchanged |
| TaskList.RelabelIdempotent | src/components/projects/TaskList.tsx:73-78 | relabelling twice is relabelling once |
| TaskList.RelabelColumns | src/components/projects/TaskList.tsx:73-79 | after relabelling, the dragged task shows only in the destination column and every other task stays in its column |
| TaskList.ProjectTaskList.constructor | src/components/projects/TaskList.tsx:31-32 | the list starts empty for its project |
| TaskList.ProjectTaskList.FetchTasks | src/components/projects/TaskList.tsx:42-51 | a response replaces the list; a failure keeps it |
| TaskList.ProjectTaskList.HandleDragEnd | src/components/projects/TaskList.tsx:62-85 | no destination does nothing; otherwise the request sets the dragged task's status to the destination; after a success only that task is relabelled and the parent is notified; after a failure the list is not edited locally but fetched again |
| ProjectList.FilteredProjects | src/components/projects/ProjectList.tsx:52-57 | a project is shown exactly when the lowercased query is in its name or description and the filter is "all" or its status |
| ProjectList.FilteredProjectsKeepOrder | src/components/projects/ProjectList.tsx:52-57 | the shown projects keep their order |
| ProjectList.NoFilterShowsAll | src/components/projects/ProjectList.tsx:52-57 | an empty search with "all" shows every project |
| ProjectList.WithoutId | src/components/projects/ProjectList.tsx:45 | removal keeps exactly the projects with another id |
| ProjectList.WithoutIdProperties | src/components/projects/ProjectList.tsx:45 | removal keeps order, removing an absent id changes nothing, and removing twice is removing once |
| ProjectList.ProjectListView.constructor | src/components/projects/ProjectList.tsx:24 | the list starts empty |
| ProjectList.ProjectListView.FetchProjects | src/components/projects/ProjectList.tsx:31-40 | a response replaces the list; a failure keeps it |
| ProjectList.ProjectListView.DeleteProject | src/components/projects/ProjectList.tsx:42-50 | a successful delete removes exactly that id's projects; a failed one leaves the list unchanged |
| ProjectDetails.CompletedCount | src/pages/ProjectDetailsPage.tsx:146 | the completed count is the number of positions holding a DONE task, at most the number of tasks |
| ProjectDetails.CompletedCountExtremes | src/pages/ProjectDetailsPage.tsx:133-146 | the count is zero exactly when no task is done, and equals the total exactly when every task is |
| ProjectDetails.Assignees | src/pages/ProjectDetailsPage.tsx:160 | the distinct assignee ids are exactly those of the tasks; there are at most as many as tasks, and none exactly when there are no tasks |
| ProjectDetails.TeamMemberCount | src/pages/ProjectDetailsPage.tsx:160 | the team-member count is at most the task count, and zero exactly when there are no tasks |
| ProjectDetails.ProjectDetailsView.constructor | src/pages/ProjectDetailsPage.tsx:34-35 | the page starts with no project loaded |
| ProjectDetails.ProjectDetailsView.FetchProject | src/pages/ProjectDetailsPage.tsx:43-52 | a response replaces the project; a failure keeps it |
| ProjectDetails.ProjectDetailsView.UpdateProjectStatus | src/pages/ProjectDetailsPage.tsx:54-62 | the request body holds only the status; the project is re-fetched only after a successful update |
| ProjectDetails.StatusRequestChangesOnlyStatus | src/pages/ProjectDetailsPage.tsx:56 | the server accepts the page's request exactly for the three statuses, and then changes only the status |
| TeamPage.FilterUsers | src/pages/TeamPage.tsx:48-50 | a user is shown exactly when the lowercased query is in the lowercased name |
| TeamPage.FilterUsersProperties | src/pages/TeamPage.tsx:48-50 | the search keeps order, an empty query keeps everyone, and searching again changes nothing |
| TeamPage.CountOrZero | src/pages/TeamPage.tsx:122-131 | a count is the list's length, or 0 when the list is absent |
| UserAssignment.Candidates | src/components/projects/UserAssignment.tsx:105-109 | no candidate shares an id with an assigned user; every candidate is a user; every unassigned user is a candidate |
| UserAssignment.CandidatesProperties | src/components/projects/UserAssignment.tsx:105-109 | the candidates keep the users' order; with nobody assigned every user is a candidate |
| UserAssignment.AssignmentView.constructor | src/components/projects/UserAssignment.tsx:19-20 | the picker starts with no users and nobody assigned |
| UserAssignment.AssignmentView.FetchUsers | src/components/projects/UserAssignment.tsx:28-35 | a response replaces the user list; a failure keeps it |
| UserAssignment.AssignmentView.FetchAssignedUsers | src/components/projects/UserAssignment.tsx:37-46 | a response replaces the assigned list; a failure keeps it |
| UserAssignment.AssignmentView.AssignUser | src/components/projects/UserAssignment.tsx:48-57 | the request is `{ userId }` for the project; only on success are the assigned users re-fetched and the parent notified |

## Left out

- Rendering, styling, icons, loading flags, toasts, dialogs and forms are not modelled. The creation dialogs only supply inputs to the server routes.
- `authenticateToken` and the error middleware are not part of this model. The caller's id is a parameter.
  - A schema failure is assumed to answer 400.
  - Any other exception answers the single `ServerError` outcome.
  - A missing or invalid token is not modelled.
- The database is reduced to three maps.
  - Fresh ids and creation times are parameters.
  - A foreign key or unique constraint that refuses a write is a `ServerError`.
  - The order in which rows come back is left open (`Store.Rows` only promises a permutation), so `TaskRoutes.List` and `ProjectRoutes.List` return sets.
- `ProjectRoutes.Delete`: the schema's `onDelete` rule is not part of this model, so the rule is a parameter (cascade or restrict) rather than asserted.
- `Crypto.Hash`, `Crypto.Compare` and `Crypto.Sign` are value types. Salts, the signing secret and the 24-hour expiry are not modelled, and no cryptographic strength is claimed.
- `Crypto.Compare`: it matches exactly when the 72 key bytes agree. It thereby assumes that bcrypt's Blowfish output never collides for different keys.
- `Text.Utf16Length` and `Text.Utf8`: a JavaScript string may hold a lone surrogate. A Dafny string cannot, so such passwords and titles are not represented.
- `UserRoutes.Login`, `UserRoutes.ChangePassword` and `ProjectRoutes.Assign`: their bodies are not validated. Each field is a string or absent; a number or `null` in those fields is not represented.
- `AuthStore.Store`: the store is wrapped in the `persist` middleware. Saving to and rehydrating from browser storage are not modelled, and a rehydrated state is assumed to satisfy `Consistent`.
- `Text.Lower`: lowercases ASCII letters only; Unicode case mapping is not modelled.
- `Text.IsUuid` and `Text.IsEmail`: these are simplified shapes (8-4-4-4-12 hex layout; one `@` and a dotted domain), not the schema library's exact expressions.
- `removeUser` in the team-member picker calls `DELETE /projects/:id/users/:userId`. The project router defines no such endpoint, so there is no server behaviour to model.
- `Promise.all`, parallel requests and the ordering of asynchronous state updates are not modelled. Each client method takes the outcome of its requests as parameters (`None` or `false` for a failure), and `useEffect` triggers are left out.
- `fetchUsers` on the kanban page and on the team page only replaces a list with the response. It is modelled for the team-member picker only.
- The client cards carry only the fields the logic reads. Descriptions and joined names are left off.
- `TasksPage.Board.HandleDragEnd`: the destination index is used as given. Dropping into a filtered column can also misplace the card within the destination; only the source side of that problem is corrected.
- `TasksPage.Move`: the multiset is stated for the two touched columns. With the other columns unchanged, this is the whole board.
- `DashboardRoutes.GetActivity`: the contract states the bound of ten, the order and the provenance. The exact length and the "newest of all" facts are proved about the feed in `DashboardRoutes.FeedProperties` and `DashboardRoutes.RecentAreNewest`.
- `DashboardRoutes.GetStats`: the five counts are taken from one snapshot of the tables, not from five separate queries.
- The date formatting on the pages is not modelled.

## Findings

| source | as written | input that shows it | evidently intended | confidence | as-written member | corrected member |
|---|---|---|---|---|---|---|
| src/pages/TasksPage.tsx:88-97 | source and destination columns are copied separately and the destination copy is written last (`TasksPage.MoveAsWritten`) | drag a card within one column to another index | the card moves within the column, which keeps its size | not executed | TasksPage.SameColumnDuplicates | TasksPage.Move |
| src/pages/TasksPage.tsx:214-240 | `source.index` counts rendered (filtered) cards but indexes the full column (`TasksPage.MoveAsWritten` at that index) | column TODO holds "a", "b"; search "b"; drag "b" (index 0) to DONE | the dragged card moves | not executed | TasksPage.FilteredDragMovesOtherCard | TasksPage.SourcePosition |
| src/server/routes/project.routes.ts:186-208 | the assignee relation is included in full (`ProjectRoutes.AssignedUsersAsWritten`) | any project with a task | the users are sent without the password digest | not executed | ProjectRoutes.AssignedUsersExposeDigestExample | ProjectRoutes.AssignedUsers |
| src/server/index.ts:30 | the task router is mounted under `/projects/:projectId/tasks`, and its list handler reads only `req.query`; the path's `:projectId` is not in it (nor, without `mergeParams`, in `req.params`) (`TaskRoutes.ProjectTasksQueryAsMounted`) | caller owns p1 and p2, a task in p2, GET /projects/p1/tasks | only the path's project's tasks | not executed | TaskRoutes.MountedRouteLeaksOtherProjects | TaskRoutes.ProjectTasksQueryIsScoped |
