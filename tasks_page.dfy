/** The kanban board page: tasks fetched from `GET /tasks`, grouped into
    columns by status, filtered by a title search and an assignee, and
    moved between columns by drag and drop. */
module TasksPage {
  import opened Wrappers
  import Text
  import Seqs
  import opened Views

  /** The board state: a column of cards per status key. */
  type Columns = map<string, seq<TaskCard>>

  /** `{ TODO: [], IN_PROGRESS: [], DONE: [] }`, the initial state and the
      seed of both reductions on the page. */
  function InitialColumns(): (c: Columns)
    ensures c.Keys == BoardStatuses
    ensures forall k :: k in c ==> c[k] == []
  {
    map["TODO" := [], "IN_PROGRESS" := [], "DONE" := []]
  }

  /** The statuses that occur in `tasks`. */
  function StatusesOf(tasks: seq<TaskCard>): set<string> {
    set i | 0 <= i < |tasks| :: tasks[i].status
  }

  /** The grouping `reduce` of `fetchTasks`: the three standard columns plus
      one per other status that occurs, each holding exactly the tasks of
      its status in response order. */
  method GroupByStatus(tasks: seq<TaskCard>) returns (cols: Columns)
    ensures cols.Keys == BoardStatuses + StatusesOf(tasks)
    ensures forall k :: k in cols ==> cols[k] == WithStatus(tasks, k)
  {
    cols := InitialColumns();
    GroupedInitially(tasks);
    var i := 0;
    while i < |tasks|
      invariant 0 <= i <= |tasks|
      invariant Grouped(cols, tasks[..i])
    {
      var t := tasks[i];
      GroupStep(cols, tasks, i);
      PushInTwoSteps(cols, t);
      var acc := cols;
      if t.status !in acc {
        acc := acc[t.status := []];
      }
      acc := acc[t.status := acc[t.status] + [t]];
      cols := acc;
      i := i + 1;
    }
    GroupedAll(cols, tasks);
  }

  /** `Push` is the source's two statements: create the missing column, then append. */
  lemma PushInTwoSteps(cols: Columns, t: TaskCard)
    ensures var created := if t.status !in cols then cols[t.status := []] else cols;
      Push(cols, t) == created[t.status := created[t.status] + [t]]
  {
  }

  lemma GroupedInitially(tasks: seq<TaskCard>)
    ensures Grouped(InitialColumns(), tasks[..0])
  {
    assert tasks[..0] == [];
    forall k | k in InitialColumns() ensures InitialColumns()[k] == WithStatus([], k) {
      WithStatusAbsent([], k);
    }
  }

  /** The board's columns are the grouping of `done`. */
  ghost predicate Grouped(cols: Columns, done: seq<TaskCard>) {
    && cols.Keys == BoardStatuses + StatusesOf(done)
    && forall k :: k in cols ==> cols[k] == WithStatus(done, k)
  }

  /** One step of the reduction: `acc[t.status]`, created empty when
      missing, gains `t` at its end. */
  function Push(cols: Columns, t: TaskCard): Columns {
    cols[t.status := (if t.status in cols then cols[t.status] else []) + [t]]
  }

  lemma StatusesAppend(done: seq<TaskCard>, t: TaskCard)
    ensures StatusesOf(done + [t]) == StatusesOf(done) + {t.status}
  {
    var s := done + [t];
    assert s[|done|] == t;
    forall x | x in StatusesOf(done) ensures x in StatusesOf(s) {
      var i :| 0 <= i < |done| && done[i].status == x;
      assert s[i] == done[i];
    }
  }

  /** Pushing a task keeps the columns the grouping of the tasks seen so far. */
  lemma GroupStep(cols: Columns, tasks: seq<TaskCard>, i: nat)
    requires i < |tasks| && Grouped(cols, tasks[..i])
    ensures Grouped(Push(cols, tasks[i]), tasks[..i + 1])
  {
    assert tasks[..i + 1] == tasks[..i] + [tasks[i]];
    GroupPush(cols, tasks[..i], tasks[i]);
  }

  lemma GroupPush(cols: Columns, done: seq<TaskCard>, t: TaskCard)
    requires Grouped(cols, done)
    ensures Grouped(Push(cols, t), done + [t])
  {
    StatusesAppend(done, t);
    if t.status !in cols {
      WithStatusAbsent(done, t.status);
    }
    var next := Push(cols, t);
    assert next.Keys == cols.Keys + {t.status};
    forall k | k in next
      ensures next[k] == WithStatus(done + [t], k)
    {
      Seqs.FilterAppend(done, t, HasStatus(k));
      if k != t.status {
        WithStatusAbsentOrKept(cols, done, k);
      }
    }
  }

  lemma GroupedAll(cols: Columns, tasks: seq<TaskCard>)
    requires Grouped(cols, tasks[..|tasks|])
    ensures cols.Keys == BoardStatuses + StatusesOf(tasks)
    ensures forall k :: k in cols ==> cols[k] == WithStatus(tasks, k)
  {
    assert tasks[..|tasks|] == tasks;
  }

  lemma WithStatusAbsentOrKept(cols: Columns, done: seq<TaskCard>, k: string)
    requires Grouped(cols, done)
    ensures k in cols ==> cols[k] == WithStatus(done, k)
  {
  }

  /** The sizes of the three standard columns and of the tasks with any
      other status add up to the number of tasks fetched. */
  lemma {:induction false} ColumnSizes(tasks: seq<TaskCard>)
    ensures |WithStatus(tasks, "TODO")| + |WithStatus(tasks, "IN_PROGRESS")| + |WithStatus(tasks, "DONE")|
            + |Seqs.Filter(tasks, (t: TaskCard) => t.status !in BoardStatuses)| == |tasks|
    decreases |tasks|
  {
    if tasks != [] {
      ColumnSizes(tasks[1..]);
    }
  }

  /** When the server sends only the three standard statuses, the board has
      exactly the three columns and their sizes add up to the response length. */
  lemma StandardStatusesOnly(tasks: seq<TaskCard>)
    requires forall i :: 0 <= i < |tasks| ==> tasks[i].status in BoardStatuses
    ensures BoardStatuses + StatusesOf(tasks) == BoardStatuses
    ensures |WithStatus(tasks, "TODO")| + |WithStatus(tasks, "IN_PROGRESS")| + |WithStatus(tasks, "DONE")| == |tasks|
  {
    ColumnSizes(tasks);
    Seqs.FilterNone(tasks, (t: TaskCard) => t.status !in BoardStatuses);
  }

  /** Whether a card passes the page's search box and assignee selector. */
  predicate Shown(query: string, assignee: string, t: TaskCard) {
    Text.Contains(Text.Lower(t.title), Text.Lower(query)) && (assignee == "" || t.assigneeId == assignee)
  }

  function ShownBy(query: string, assignee: string): TaskCard -> bool {
    (t: TaskCard) => Shown(query, assignee, t)
  }

  /** The cards of one column that the page renders. */
  function Visible(col: seq<TaskCard>, query: string, assignee: string): (r: seq<TaskCard>)
    ensures |r| <= |col|
    ensures forall i :: 0 <= i < |r| ==> r[i] in col && Shown(query, assignee, r[i])
    ensures forall i :: 0 <= i < |col| && Shown(query, assignee, col[i]) ==> col[i] in r
  {
    Seqs.Filter(col, ShownBy(query, assignee))
  }

  /** `filteredTasks`: the three standard columns plus every column of the
      board, each cut down to its shown cards in order. */
  function FilteredColumns(cols: Columns, query: string, assignee: string): (r: Columns)
    ensures r.Keys == BoardStatuses + cols.Keys
    ensures forall k :: k in cols ==> r[k] == Visible(cols[k], query, assignee)
    ensures forall k :: k in r && k !in cols ==> r[k] == []
  {
    map k | k in BoardStatuses + cols.Keys :: if k in cols then Visible(cols[k], query, assignee) else []
  }

  /** Each filtered column keeps the order of the cards it shows. */
  lemma FilteredColumnsKeepOrder(cols: Columns, query: string, assignee: string, k: string)
    requires k in cols
    ensures Seqs.IsSubsequence(FilteredColumns(cols, query, assignee)[k], cols[k])
  {
    Seqs.FilterIsSubsequence(cols[k], ShownBy(query, assignee));
  }

  /** An empty search with no assignee selected shows the board as it is. */
  lemma NoFilterShowsAll(cols: Columns)
    requires BoardStatuses <= cols.Keys
    ensures FilteredColumns(cols, "", "") == cols
  {
    var r := FilteredColumns(cols, "", "");
    assert r.Keys == cols.Keys;
    forall k | k in cols ensures r[k] == cols[k] {
      NoFilterShowsColumn(cols[k]);
    }
  }

  /** An empty search with no assignee selected shows a column as it is. */
  lemma NoFilterShowsColumn(col: seq<TaskCard>)
    ensures Visible(col, "", "") == col
  {
    forall i | 0 <= i < |col| ensures ShownBy("", "")(col[i]) {
      Text.ContainsEmpty(Text.Lower(col[i].title));
    }
    Seqs.FilterKeepsAll(col, ShownBy("", ""));
  }

  /** The board after a drop as the page computes it: copies of the source
      and destination columns are spliced separately, and the destination
      copy is written last. */
  function MoveAsWritten(cols: Columns, src: string, si: nat, dst: string, di: nat): (r: Columns)
    requires src in cols && dst in cols && si < |cols[src]|
    ensures r.Keys == cols.Keys
  {
    var removed := cols[src][si];
    cols[src := Seqs.RemoveAt(cols[src], si)][dst := Seqs.InsertAt(cols[dst], di, removed)]
  }

  /** Within one column, the copy that wins still holds the dragged card,
      so the card ends up in the column twice. */
  lemma SameColumnDuplicates(cols: Columns, c: string, si: nat, di: nat)
    requires c in cols && si < |cols[c]|
    ensures |MoveAsWritten(cols, c, si, c, di)[c]| == |cols[c]| + 1
    ensures multiset(MoveAsWritten(cols, c, si, c, di)[c])[cols[c][si]] == multiset(cols[c])[cols[c][si]] + 1
  {
  }

  /** The intended move: take the card out of its column and insert it into
      the destination, which may be the same column. */
  function Move(cols: Columns, src: string, si: nat, dst: string, di: nat): (r: Columns)
    requires src in cols && dst in cols && si < |cols[src]|
    ensures r.Keys == cols.Keys
    ensures forall k :: k in cols && k != src && k != dst ==> r[k] == cols[k]
    ensures src != dst ==>
      && r[src] == Seqs.RemoveAt(cols[src], si)
      && r[dst] == Seqs.InsertAt(cols[dst], di, cols[src][si])
      && multiset(r[src]) + multiset(r[dst]) == multiset(cols[src]) + multiset(cols[dst])
    ensures src == dst ==>
      && r[src] == Seqs.InsertAt(Seqs.RemoveAt(cols[src], si), di, cols[src][si])
      && |r[src]| == |cols[src]|
      && multiset(r[src]) == multiset(cols[src])
      && r[src][if di < |cols[src]| then di else |cols[src]| - 1] == cols[src][si]
  {
    if src == dst then
      cols[src := Seqs.InsertAt(Seqs.RemoveAt(cols[src], si), di, cols[src][si])]
    else
      MoveAsWritten(cols, src, si, dst, di)
  }

  /** Across columns the page's computation is the intended one. */
  lemma MoveAcrossColumnsAsWritten(cols: Columns, src: string, si: nat, dst: string, di: nat)
    requires src in cols && dst in cols && si < |cols[src]| && src != dst
    ensures MoveAsWritten(cols, src, si, dst, di) == Move(cols, src, si, dst, di)
  {
  }

  /** Dragging a card back to the column and position it came from
      restores the board. */
  lemma MoveUndoAcross(cols: Columns, src: string, si: nat, dst: string, di: nat)
    requires src in cols && dst in cols && si < |cols[src]| && src != dst && di <= |cols[dst]|
    ensures var moved := Move(cols, src, si, dst, di);
      di < |moved[dst]| && Move(moved, dst, di, src, si) == cols
  {
    var x := cols[src][si];
    var moved := Move(cols, src, si, dst, di);
    assert moved[dst][di] == x;
    var back := Move(moved, dst, di, src, si);
    Seqs.RemoveInserted(cols[dst], di, x);
    Seqs.InsertRemoved(cols[src], si);
    assert back[dst] == cols[dst];
    assert back[src] == cols[src];
  }

  /** The same within one column. */
  lemma MoveUndoWithin(cols: Columns, c: string, si: nat, di: nat)
    requires c in cols && si < |cols[c]| && di < |cols[c]|
    ensures var moved := Move(cols, c, si, c, di);
      di < |moved[c]| && Move(moved, c, di, c, si) == cols
  {
    var x := cols[c][si];
    var rest := Seqs.RemoveAt(cols[c], si);
    var moved := Move(cols, c, si, c, di);
    assert moved[c] == Seqs.InsertAt(rest, di, x);
    assert moved[c][di] == x;
    Seqs.RemoveInserted(rest, di, x);
    Seqs.InsertRemoved(cols[c], si);
    assert Move(moved, c, di, c, si)[c] == cols[c];
  }

  /** The first position of `card` in `col`. */
  function PositionOf(col: seq<TaskCard>, card: TaskCard): (i: nat)
    requires card in col
    ensures i < |col| && col[i] == card
    ensures forall j :: 0 <= j < i ==> col[j] != card
  {
    if col[0] == card then 0 else 1 + PositionOf(col[1..], card)
  }

  /** Where a card dropped from a filtered view actually sits in its column:
      `index` counts only the cards the view shows. */
  function SourcePosition(cols: Columns, query: string, assignee: string, src: string, index: nat): (i: nat)
    requires src in cols && index < |Visible(cols[src], query, assignee)|
    ensures i < |cols[src]| && cols[src][i] == Visible(cols[src], query, assignee)[index]
  {
    PositionOf(cols[src], Visible(cols[src], query, assignee)[index])
  }

  /** With a search active, the page's index can point at a different card
      than the one dragged: the board holds cards "a" and "b", the search
      "b" shows only the second, and dragging it (shown at index 0) moves
      the first. */
  lemma FilteredDragMovesOtherCard()
    ensures var a := TaskCard("1", "a", "TODO", "u", "p");
            var b := TaskCard("2", "b", "TODO", "u", "p");
            var cols := map["TODO" := [a, b], "IN_PROGRESS" := [], "DONE" := []];
            && Visible(cols["TODO"], "b", "") == [b]
            && MoveAsWritten(cols, "TODO", 0, "DONE", 0)["DONE"] == [a]
            && Move(cols, "TODO", SourcePosition(cols, "b", "", "TODO", 0), "DONE", 0)["DONE"] == [b]
  {
    var a := TaskCard("1", "a", "TODO", "u", "p");
    var b := TaskCard("2", "b", "TODO", "u", "p");
    var cols := map["TODO" := [a, b], "IN_PROGRESS" := [], "DONE" := []];
    SearchShowsSecond(a, b);
    assert cols["TODO"] == [a, b];
    assert SourcePosition(cols, "b", "", "TODO", 0) == 1;
    assert Seqs.InsertAt([], 0, a) == [a] && Seqs.InsertAt([], 0, b) == [b];
  }

  /** In the example, the search "b" shows only the card titled "b". */
  lemma SearchShowsSecond(a: TaskCard, b: TaskCard)
    requires a.title == "a" && b.title == "b"
    ensures Visible([a, b], "b", "") == [b]
  {
    assert Text.Lower("a") == "a" && Text.Lower("b") == "b";
    assert !Text.Contains("a", "b") by {
      assert "a"[1..] == "";
      assert "a"[..1] == "a" && "a"[0] != "b"[0];
      assert !Text.IsPrefix("b", "a");
      assert !Text.Contains("", "b");
    }
    assert Text.IsPrefix("b", "b");
    assert !Shown("b", "", a) && Shown("b", "", b);
    assert [a, b][1..] == [b] && [b][1..] == [];
    assert Seqs.Filter([b], ShownBy("b", "")) == [b];
  }

  /** Writing back the two touched columns undoes a change confined to them. */
  lemma Rollback(before: Columns, after: Columns, src: string, dst: string)
    requires src in before && dst in before && after.Keys == before.Keys
    requires forall k :: k in before && k != src && k != dst ==> after[k] == before[k]
    ensures after[src := before[src]][dst := before[dst]] == before
  {
  }

  /** A drop location: a column key and a position in the rendered column. */
  datatype Location = Location(droppableId: string, index: nat)

  /** What the drag-and-drop library passes to `onDragEnd`. */
  datatype DropResult = DropResult(draggableId: string, source: Location, destination: Option<Location>)

  class Board {
    var columns: Columns
    var searchQuery: string
    var assigneeFilter: string

    /** The three standard columns are always present. */
    ghost predicate Valid()
      reads this
    {
      BoardStatuses <= columns.Keys
    }

    constructor ()
      ensures Valid()
      ensures columns == InitialColumns() && searchQuery == "" && assigneeFilter == ""
    {
      columns := InitialColumns();
      searchQuery := "";
      assigneeFilter := "";
    }

    /** What the page renders. */
    function Rendered(): Columns
      reads this
    {
      FilteredColumns(columns, searchQuery, assigneeFilter)
    }

    /** `fetchTasks`: `None` stands for a failed request, which keeps the board. */
    method FetchTasks(response: Option<seq<TaskCard>>)
      requires Valid()
      modifies this
      ensures Valid()
      ensures response.None? ==> columns == old(columns)
      ensures response.Some? ==>
        && columns.Keys == BoardStatuses + StatusesOf(response.value)
        && forall k :: k in columns ==> columns[k] == WithStatus(response.value, k)
      ensures searchQuery == old(searchQuery) && assigneeFilter == old(assigneeFilter)
    {
      if response.Some? {
        columns := GroupByStatus(response.value);
      }
    }

    /** `handleDragEnd`, with the dragged card located by its position among
      the rendered cards. `putSucceeds` is the outcome of the status
      update; its request is returned. A failed update rolls the board back
      to its state before the drop. */
    method HandleDragEnd(drop: DropResult, putSucceeds: bool) returns (request: Option<StatusUpdate>)
      requires Valid()
      requires drop.source.droppableId in columns
      requires drop.source.index < |Visible(columns[drop.source.droppableId], searchQuery, assigneeFilter)|
      requires drop.destination.Some? ==> drop.destination.value.droppableId in columns
      modifies this
      ensures Valid()
      ensures searchQuery == old(searchQuery) && assigneeFilter == old(assigneeFilter)
      ensures drop.destination.None? || drop.destination.value == drop.source ==>
        request.None? && columns == old(columns)
      ensures drop.destination.Some? && drop.destination.value != drop.source ==>
        && request == Some(StatusUpdate(drop.draggableId, drop.destination.value.droppableId))
        && columns == if putSucceeds then
             Move(old(columns), drop.source.droppableId,
                  SourcePosition(old(columns), searchQuery, assigneeFilter,
                                 drop.source.droppableId, drop.source.index),
                  drop.destination.value.droppableId, drop.destination.value.index)
           else old(columns)
    {
      if drop.destination.None? {
        return None;
      }
      var src, dst := drop.source, drop.destination.value;
      if src.droppableId == dst.droppableId && src.index == dst.index {
        return None;
      }
      var before := columns;
      var si := SourcePosition(columns, searchQuery, assigneeFilter, src.droppableId, src.index);
      columns := Move(columns, src.droppableId, si, dst.droppableId, dst.index);
      request := Some(StatusUpdate(drop.draggableId, dst.droppableId));
      if !putSucceeds {
        Rollback(before, columns, src.droppableId, dst.droppableId);
        columns := columns[src.droppableId := before[src.droppableId]][dst.droppableId := before[dst.droppableId]];
      }
    }
  }
}
