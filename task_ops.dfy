/** The task operations of `TodoViewModel`, on values: what each operation
    does to one record, what it does to the table the repository writes to,
    and the client-side ordering of the list. Both view-models (the
    `tasks` one and the `todolist` one) perform these same operations. */
module TaskOps {
  import opened Wrappers
  import opened KotlinText
  import opened Todos
  import opened Sorting
  import opened TodoEntities
  import opened TodoDatabase
  import opened Repository

  // ---------------------------------------------------------------------
  // The store invariant

  /** Every stored task has a completion time exactly when it is completed,
      and every row sits under its own id. */
  predicate StoreConsistent(rows: Table) {
    KeyedById(rows) && forall k :: k in rows ==> CompletedAtConsistent(ToTodo(rows[k]))
  }

  /** Writing back a record under its own id keeps the other rows and, if
      the record is consistent, the invariant. */
  function WithRecord(rows: Table, t: Todo): (r: Table)
    requires KeyedById(rows) && t.id in rows
    ensures r.Keys == rows.Keys && KeyedById(r)
    ensures ToTodo(r[t.id]) == t
    ensures forall k :: k in rows && k != t.id ==> r[k] == rows[k]
    ensures StoreConsistent(rows) && CompletedAtConsistent(t) ==> StoreConsistent(r)
  {
    ConversionsRoundTrip(t, ToEntity(t));
    UpdateRow(rows, ToEntity(t))
  }

  // ---------------------------------------------------------------------
  // addTodo

  /** The record `addTodo` creates, or `None` for a blank title. */
  function AddedTodo(id: string, title: string, description: string, priority: Priority,
                     dueDate: Option<Long>, subTasks: seq<SubTask>, now: Long): (r: Option<Todo>)
    ensures r.None? <==> IsBlank(title)
    ensures r.Some? ==>
              var t := r.value;
              t.id == id && t.title == Trim(title) && t.title != [] && t.description == Trim(description)
              && t.priority == priority && t.dueDate == dueDate && t.subTasks == subTasks
              && t.createdAt == now && !t.isCompleted && t.completedAt == None
              && CompletedAtConsistent(t)
  {
    if IsBlank(title) then None
    else Some(Todo(id, Trim(title), Trim(description), false, priority, dueDate, subTasks, now, None))
  }

  /** The row an accepted `addTodo` upserts. */
  function AddedRow(id: string, title: string, description: string, priority: Priority,
                    dueDate: Option<Long>, subTasks: seq<SubTask>, now: Long): (e: TodoEntity)
    requires !IsBlank(title)
    ensures e.id == id && !e.isCompleted && e.completedAt == None
    ensures ToTodo(e) == AddedTodo(id, title, description, priority, dueDate, subTasks, now).value
  {
    var t := AddedTodo(id, title, description, priority, dueDate, subTasks, now).value;
    ConversionsRoundTrip(t, ToEntity(t));
    ToEntity(t)
  }

  /** The table after `addTodo`: unchanged for a blank title, otherwise the
      new record upserted. */
  function AddTodoIn(rows: Table, id: string, title: string, description: string, priority: Priority,
                     dueDate: Option<Long>, subTasks: seq<SubTask>, now: Long): (r: Table)
    ensures IsBlank(title) ==> r == rows
    ensures !IsBlank(title) ==>
              r.Keys == rows.Keys + {id}
              && ToTodo(r[id]) == AddedTodo(id, title, description, priority, dueDate, subTasks, now).value
    ensures forall k :: k in rows && k != id ==> k in r && r[k] == rows[k]
    ensures StoreConsistent(rows) ==> StoreConsistent(r)
  {
    if IsBlank(title) then rows
    else
      var e := AddedRow(id, title, description, priority, dueDate, subTasks, now);
      UpsertConsistent(rows, e);
      Upsert(rows, e)
  }

  /** Upserting a consistent record keeps the store consistent. */
  lemma UpsertConsistent(rows: Table, e: TodoEntity)
    requires CompletedAtConsistent(ToTodo(e))
    ensures StoreConsistent(rows) ==> StoreConsistent(Upsert(rows, e))
  {
  }

  /** A task added under an unused id adds exactly one row. */
  lemma AddTodoAddsRow(rows: Table, id: string, title: string, description: string, priority: Priority,
                       dueDate: Option<Long>, subTasks: seq<SubTask>, now: Long)
    requires id !in rows && !IsBlank(title)
    ensures var r := AddTodoIn(rows, id, title, description, priority, dueDate, subTasks, now);
            |r| == |rows| + 1 && r.Keys == rows.Keys + {id}
  {
  }

  /** A task added under an unused id joins the open section and leaves the
      completed section as it was. */
  lemma AddTodoCounts(rows: Table, id: string, title: string, description: string, priority: Priority,
                      dueDate: Option<Long>, subTasks: seq<SubTask>, now: Long)
    requires id !in rows && !IsBlank(title)
    ensures var r := AddTodoIn(rows, id, title, description, priority, dueDate, subTasks, now);
            IdsWhere(r, IncompleteRows) == IdsWhere(rows, IncompleteRows) + {id}
            && IdsWhere(r, CompletedRows) == IdsWhere(rows, CompletedRows)
  {
    var e := AddedRow(id, title, description, priority, dueDate, subTasks, now);
    var r := AddTodoIn(rows, id, title, description, priority, dueDate, subTasks, now);
    assert r == Upsert(rows, e);
    UpsertOpenRow(rows, e);
  }

  // ---------------------------------------------------------------------
  // toggleTodoCompletion

  /** `todo.copy(isCompleted = !isCompleted, completedAt = ...)`: the state is
      flipped, the completion time is `now` when it becomes completed and
      null when it reopens, and nothing else changes. */
  function Toggled(t: Todo, now: Long): (r: Todo)
    ensures r.isCompleted == !t.isCompleted
    ensures r.completedAt == (if r.isCompleted then Some(now) else None)
    ensures r == t.(isCompleted := r.isCompleted, completedAt := r.completedAt)
    ensures CompletedAtConsistent(r)
  {
    t.(isCompleted := !t.isCompleted, completedAt := if !t.isCompleted then Some(now) else None)
  }

  /** Toggling twice restores the state; an open, consistent task comes back
      exactly, while a completed one comes back with the second toggle's
      time as its completion time. */
  lemma ToggleTwice(t: Todo, now1: Long, now2: Long)
    ensures Toggled(Toggled(t, now1), now2).isCompleted == t.isCompleted
    ensures !t.isCompleted && CompletedAtConsistent(t) ==> Toggled(Toggled(t, now1), now2) == t
    ensures t.isCompleted ==> Toggled(Toggled(t, now1), now2) == t.(completedAt := Some(now2))
  {
  }

  /** The table after `toggleTodoCompletion`. */
  function ToggleTodoIn(rows: Table, id: string, now: Long): (r: Table)
    requires KeyedById(rows)
    ensures r.Keys == rows.Keys && KeyedById(r)
    ensures id in rows ==> ToTodo(r[id]) == Toggled(ToTodo(rows[id]), now)
    ensures forall k :: k in rows && k != id ==> r[k] == rows[k]
    ensures id !in rows ==> r == rows
    ensures StoreConsistent(rows) ==> StoreConsistent(r)
  {
    if id in rows then WithRecord(rows, Toggled(ToTodo(rows[id]), now)) else rows
  }

  /** A toggle moves its task, and only it, between the open and the
      completed section. */
  lemma ToggleMovesSection(rows: Table, id: string, now: Long)
    requires KeyedById(rows) && id in rows
    ensures var r := ToggleTodoIn(rows, id, now);
            if rows[id].isCompleted then
              IdsWhere(r, IncompleteRows) == IdsWhere(rows, IncompleteRows) + {id}
              && IdsWhere(r, CompletedRows) == IdsWhere(rows, CompletedRows) - {id}
            else
              IdsWhere(r, CompletedRows) == IdsWhere(rows, CompletedRows) + {id}
              && IdsWhere(r, IncompleteRows) == IdsWhere(rows, IncompleteRows) - {id}
  {
    var r := ToggleTodoIn(rows, id, now);
    ConversionsRoundTrip(Toggled(ToTodo(rows[id]), now), r[id]);
    assert r[id].isCompleted == !rows[id].isCompleted;
  }

  // ---------------------------------------------------------------------
  // updateTodo

  /** `todo.copy(...)` of `updateTodo`: the edited fields, trimmed where the
      source trims, over a record whose id, state, creation time and
      completion time are kept. */
  function EditedTodo(t: Todo, title: string, description: string, priority: Priority,
                      dueDate: Option<Long>, subTasks: seq<SubTask>): (r: Todo)
    ensures r.id == t.id && r.isCompleted == t.isCompleted
    ensures r.createdAt == t.createdAt && r.completedAt == t.completedAt
    ensures r.title == Trim(title) && r.description == Trim(description)
    ensures r.priority == priority && r.dueDate == dueDate && r.subTasks == subTasks
    ensures CompletedAtConsistent(t) ==> CompletedAtConsistent(r)
  {
    t.(title := Trim(title), description := Trim(description), priority := priority,
       dueDate := dueDate, subTasks := subTasks)
  }

  /** The table after `updateTodo`: unchanged for a blank title or an
      unknown id. */
  function EditTodoIn(rows: Table, id: string, title: string, description: string, priority: Priority,
                      dueDate: Option<Long>, subTasks: seq<SubTask>): (r: Table)
    requires KeyedById(rows)
    ensures r.Keys == rows.Keys && KeyedById(r)
    ensures IsBlank(title) || id !in rows ==> r == rows
    ensures !IsBlank(title) && id in rows ==>
              ToTodo(r[id]) == EditedTodo(ToTodo(rows[id]), title, description, priority, dueDate, subTasks)
    ensures forall k :: k in rows && k != id ==> r[k] == rows[k]
    ensures StoreConsistent(rows) ==> StoreConsistent(r)
  {
    if IsBlank(title) || id !in rows then rows
    else WithRecord(rows, EditedTodo(ToTodo(rows[id]), title, description, priority, dueDate, subTasks))
  }

  /** Editing a task with its own current values changes nothing once its
      texts are trimmed. */
  lemma EditWithSameValues(t: Todo)
    requires Trim(t.title) == t.title && Trim(t.description) == t.description
    ensures EditedTodo(t, t.title, t.description, t.priority, t.dueDate, t.subTasks) == t
  {
  }

  // ---------------------------------------------------------------------
  // Subtasks

  /** `subTasks.map { if (it.id == subTaskId) it.copy(isCompleted = !it.isCompleted) else it }`. */
  function ToggledSubTasks(subs: seq<SubTask>, subTaskId: string): (r: seq<SubTask>)
    ensures |r| == |subs|
    ensures forall i :: 0 <= i < |r| ==> r[i].id == subs[i].id && r[i].title == subs[i].title
                                         && r[i].createdAt == subs[i].createdAt
    ensures forall i :: 0 <= i < |r| ==>
              r[i].isCompleted == (if subs[i].id == subTaskId then !subs[i].isCompleted else subs[i].isCompleted)
  {
    seq(|subs|, i requires 0 <= i < |subs| =>
      if subs[i].id == subTaskId then subs[i].(isCompleted := !subs[i].isCompleted) else subs[i])
  }

  /** Toggling the same subtask twice restores the list, and a toggle of an
      id no subtask has changes nothing. */
  lemma ToggleSubTaskTwice(subs: seq<SubTask>, subTaskId: string)
    ensures ToggledSubTasks(ToggledSubTasks(subs, subTaskId), subTaskId) == subs
    ensures (forall i :: 0 <= i < |subs| ==> subs[i].id != subTaskId) ==> ToggledSubTasks(subs, subTaskId) == subs
  {
  }

  /** Toggling the one subtask with a given id moves the checked count by one. */
  lemma {:induction false} ToggleSubTaskCount(subs: seq<SubTask>, subTaskId: string, j: nat)
    requires j < |subs| && subs[j].id == subTaskId
    requires forall i :: 0 <= i < |subs| && i != j ==> subs[i].id != subTaskId
    ensures var n := CompletedSubTasksCount(ToggledSubTasks(subs, subTaskId));
            n == CompletedSubTasksCount(subs) + (if subs[j].isCompleted then -1 else 1)
  {
    var r := ToggledSubTasks(subs, subTaskId);
    assert r[1..] == ToggledSubTasks(subs[1..], subTaskId);
    if j == 0 {
      assert r[1..] == subs[1..];
    } else {
      ToggleSubTaskCount(subs[1..], subTaskId, j - 1);
      assert r[0] == subs[0];
    }
  }

  /** `subTasks.filter { it.id != subTaskId }`. */
  function WithoutSubTask(subs: seq<SubTask>, subTaskId: string): (r: seq<SubTask>)
    ensures |r| <= |subs|
    ensures forall i :: 0 <= i < |r| ==> r[i].id != subTaskId && r[i] in subs
    ensures forall i :: 0 <= i < |subs| && subs[i].id != subTaskId ==> subs[i] in r
  {
    if subs == [] then []
    else
      var rest := WithoutSubTask(subs[1..], subTaskId);
      if subs[0].id == subTaskId then rest else [subs[0]] + rest
  }

  /** The filter works element by element, so the kept subtasks keep their
      relative order. */
  lemma {:induction false} WithoutSubTaskAppend(a: seq<SubTask>, b: seq<SubTask>, subTaskId: string)
    ensures WithoutSubTask(a + b, subTaskId) == WithoutSubTask(a, subTaskId) + WithoutSubTask(b, subTaskId)
  {
    if a == [] {
      assert a + b == b;
    } else {
      assert (a + b)[0] == a[0] && (a + b)[1..] == a[1..] + b;
      WithoutSubTaskAppend(a[1..], b, subTaskId);
    }
  }

  /** Deleting an id no subtask has changes nothing; deleting the subtask
      just appended under a new id gives back the list before. */
  lemma {:induction false} WithoutSubTaskUndoesAppend(subs: seq<SubTask>, s: SubTask)
    requires forall i :: 0 <= i < |subs| ==> subs[i].id != s.id
    ensures WithoutSubTask(subs, s.id) == subs
    ensures WithoutSubTask(subs + [s], s.id) == subs
  {
    if subs != [] {
      WithoutSubTaskUndoesAppend(subs[1..], s);
      assert subs == [subs[0]] + subs[1..];
    }
    WithoutSubTaskAppend(subs, [s], s.id);
    assert WithoutSubTask([s], s.id) == [];
  }

  /** The table after `toggleSubTaskCompletion`. */
  function ToggleSubTaskIn(rows: Table, id: string, subTaskId: string): (r: Table)
    requires KeyedById(rows)
    ensures r.Keys == rows.Keys && KeyedById(r)
    ensures id in rows ==>
              ToTodo(r[id]) == ToTodo(rows[id]).(subTasks := ToggledSubTasks(rows[id].subTasks, subTaskId))
    ensures forall k :: k in rows && k != id ==> r[k] == rows[k]
    ensures id !in rows ==> r == rows
    ensures StoreConsistent(rows) ==> StoreConsistent(r)
  {
    if id in rows then
      var t := ToTodo(rows[id]);
      WithRecord(rows, t.(subTasks := ToggledSubTasks(t.subTasks, subTaskId)))
    else rows
  }

  /** The table after `addSubTask`: one subtask with the trimmed title at the
      end of the list, nothing for a blank title or an unknown task. */
  function AddSubTaskIn(rows: Table, id: string, title: string, subTaskId: string, now: Long): (r: Table)
    requires KeyedById(rows)
    ensures r.Keys == rows.Keys && KeyedById(r)
    ensures IsBlank(title) || id !in rows ==> r == rows
    ensures !IsBlank(title) && id in rows ==>
              ToTodo(r[id]) == ToTodo(rows[id]).(subTasks := rows[id].subTasks + [NewSubTask(subTaskId, Trim(title), now)])
    ensures forall k :: k in rows && k != id ==> r[k] == rows[k]
    ensures StoreConsistent(rows) ==> StoreConsistent(r)
  {
    if IsBlank(title) || id !in rows then rows
    else
      var t := ToTodo(rows[id]);
      WithRecord(rows, t.(subTasks := t.subTasks + [NewSubTask(subTaskId, Trim(title), now)]))
  }

  /** The table after `deleteSubTask`. */
  function DeleteSubTaskIn(rows: Table, id: string, subTaskId: string): (r: Table)
    requires KeyedById(rows)
    ensures r.Keys == rows.Keys && KeyedById(r)
    ensures id in rows ==>
              ToTodo(r[id]) == ToTodo(rows[id]).(subTasks := WithoutSubTask(rows[id].subTasks, subTaskId))
    ensures forall k :: k in rows && k != id ==> r[k] == rows[k]
    ensures id !in rows ==> r == rows
    ensures StoreConsistent(rows) ==> StoreConsistent(r)
  {
    if id in rows then
      var t := ToTodo(rows[id]);
      WithRecord(rows, t.(subTasks := WithoutSubTask(t.subTasks, subTaskId)))
    else rows
  }

  /** Adding a subtask under a new id and deleting it again restores the
      table. */
  lemma AddThenDeleteSubTask(rows: Table, id: string, title: string, subTaskId: string, now: Long)
    requires KeyedById(rows) && id in rows && !IsBlank(title)
    requires forall i :: 0 <= i < |rows[id].subTasks| ==> rows[id].subTasks[i].id != subTaskId
    ensures DeleteSubTaskIn(AddSubTaskIn(rows, id, title, subTaskId, now), id, subTaskId) == rows
  {
    var mid := AddSubTaskIn(rows, id, title, subTaskId, now);
    WithoutSubTaskUndoesAppend(rows[id].subTasks, NewSubTask(subTaskId, Trim(title), now));
    var r := DeleteSubTaskIn(mid, id, subTaskId);
    ConversionsRoundTrip(ToTodo(r[id]), rows[id]);
    assert ToTodo(r[id]) == ToTodo(rows[id]);
    ConversionsRoundTrip(ToTodo(rows[id]), r[id]);
    assert r[id] == rows[id];
  }

  // ---------------------------------------------------------------------
  // The list: counting and ordering

  /** `filter { !it.isCompleted }`. */
  function Incomplete(todos: seq<Todo>): (r: seq<Todo>)
    ensures |r| <= |todos|
    ensures forall i :: 0 <= i < |r| ==> !r[i].isCompleted
  {
    if todos == [] then []
    else (if todos[0].isCompleted then [] else [todos[0]]) + Incomplete(todos[1..])
  }

  /** `filter { it.isCompleted }`. */
  function Completed(todos: seq<Todo>): (r: seq<Todo>)
    ensures |r| <= |todos|
    ensures forall i :: 0 <= i < |r| ==> r[i].isCompleted
  {
    if todos == [] then []
    else (if todos[0].isCompleted then [todos[0]] else []) + Completed(todos[1..])
  }

  /** The two filters split the list: together they hold every task once. */
  lemma {:induction false} FiltersPartition(todos: seq<Todo>)
    ensures multiset(Incomplete(todos)) + multiset(Completed(todos)) == multiset(todos)
    ensures |Incomplete(todos)| + |Completed(todos)| == |todos|
  {
    if todos != [] {
      FiltersPartition(todos[1..]);
      assert todos == [todos[0]] + todos[1..];
    }
  }

  /** The filters work element by element, so each keeps the input order. */
  lemma {:induction false} FiltersAppend(a: seq<Todo>, b: seq<Todo>)
    ensures Incomplete(a + b) == Incomplete(a) + Incomplete(b)
    ensures Completed(a + b) == Completed(a) + Completed(b)
  {
    if a == [] {
      assert a + b == b;
    } else {
      assert (a + b)[0] == a[0] && (a + b)[1..] == a[1..] + b;
      FiltersAppend(a[1..], b);
    }
  }

  /** `getIncompleteCount`: `todos.count { !it.isCompleted }`. */
  function IncompleteCount(todos: seq<Todo>): (n: nat)
    ensures n <= |todos|
    ensures n == 0 <==> forall i :: 0 <= i < |todos| ==> todos[i].isCompleted
    ensures n == |todos| <==> forall i :: 0 <= i < |todos| ==> !todos[i].isCompleted
  {
    if todos == [] then 0
    else
      var rest := IncompleteCount(todos[1..]);
      assert forall i :: 1 <= i < |todos| ==> todos[i] == todos[1..][i - 1];
      (if todos[0].isCompleted then 0 else 1) + rest
  }

  /** The count is the length of the open section of the sorted list. */
  lemma {:induction false} IncompleteCountIsFilter(todos: seq<Todo>)
    ensures IncompleteCount(todos) == |Incomplete(todos)|
  {
    if todos != [] {
      IncompleteCountIsFilter(todos[1..]);
    }
  }

  /** The comparator `compareByDescending { priority.ordinal }.thenBy { dueDate ?: Long.MAX_VALUE }`
      as a key: higher priority first, then earlier due date, no date last. */
  function PriorityKey(t: Todo): Rank {
    Rank(-(t.priority.Ordinal() as int), t.dueDate.GetOr(LONG_MAX))
  }

  /** What the key order means. */
  lemma PriorityKeyOrder(a: Todo, b: Todo)
    ensures RankLe(PriorityKey(a), PriorityKey(b)) <==>
              a.priority.Ordinal() > b.priority.Ordinal()
              || (a.priority == b.priority && a.dueDate.GetOr(LONG_MAX) <= b.dueDate.GetOr(LONG_MAX))
    ensures a.priority == b.priority && b.dueDate.None? ==> RankLe(PriorityKey(a), PriorityKey(b))
  {
    PriorityOrdinalsOrdered(a.priority, b.priority);
  }

  /** `sortTodosByPriority`: the open tasks in key order, stable, followed by
      the completed tasks in list order. */
  function SortByPriority(todos: seq<Todo>): (r: seq<Todo>)
    ensures multiset(r) == multiset(todos) && |r| == |todos|
    ensures var n := |Incomplete(todos)|;
            n <= |r|
            && SortedBy(r[..n], PriorityKey)
            && multiset(r[..n]) == multiset(Incomplete(todos))
            && r[n..] == Completed(todos)
            && (forall i :: 0 <= i < n ==> !r[i].isCompleted)
            && (forall i :: n <= i < |r| ==> r[i].isCompleted)
  {
    var open := InsertionSort(Incomplete(todos), PriorityKey);
    var done := Completed(todos);
    FiltersPartition(todos);
    var r := open + done;
    assert r[..|open|] == open && r[|open|..] == done;
    SameMultisetAllOpen(open, Incomplete(todos));
    r
  }

  /** A rearrangement of open tasks holds only open tasks. */
  lemma SameMultisetAllOpen(a: seq<Todo>, b: seq<Todo>)
    requires multiset(a) == multiset(b) && forall i :: 0 <= i < |b| ==> !b[i].isCompleted
    ensures forall i :: 0 <= i < |a| ==> !a[i].isCompleted
  {
    forall i | 0 <= i < |a| ensures !a[i].isCompleted {
      assert a[i] in multiset(a);
      assert a[i] in b;
    }
  }

  /** Stability: open tasks that tie on priority and due date keep their
      list order, and so the open section is the one `sortedWith` gives. */
  lemma SortByPriorityStable(todos: seq<Todo>, k: Rank)
    ensures var r := SortByPriority(todos);
            Ties(r[..|Incomplete(todos)|], k, PriorityKey) == Ties(Incomplete(todos), k, PriorityKey)
  {
    var r := SortByPriority(todos);
    assert r[..|Incomplete(todos)|] == InsertionSort(Incomplete(todos), PriorityKey);
    InsertionSortStable(Incomplete(todos), k, PriorityKey);
  }

  /** Any arrangement that puts the open tasks first, sorted and stable, and
      then the completed tasks in list order, is SortByPriority's. */
  lemma SortByPriorityUnique(todos: seq<Todo>, open: seq<Todo>)
    requires multiset(open) == multiset(Incomplete(todos)) && SortedBy(open, PriorityKey)
    requires forall k :: Ties(open, k, PriorityKey) == Ties(Incomplete(todos), k, PriorityKey)
    ensures open + Completed(todos) == SortByPriority(todos)
  {
    StableSortIsInsertionSort(Incomplete(todos), open, PriorityKey);
  }

  // ---------------------------------------------------------------------
  // initializeSampleData

  /** The ids of a list of tasks. */
  function IdsOf(todos: seq<Todo>): set<string> {
    set i | 0 <= i < |todos| :: todos[i].id
  }

  /** The ids of a non-empty list are those of its front and its last. */
  lemma IdsOfSnoc(todos: seq<Todo>)
    requires todos != []
    ensures IdsOf(todos) == IdsOf(todos[..|todos| - 1]) + {todos[|todos| - 1].id}
  {
    var init := todos[..|todos| - 1];
    assert forall i :: 0 <= i < |init| ==> init[i] == todos[i];
  }

  /** The table after `todos.forEach { repository.insertTodo(it) }`. */
  function InsertAll(rows: Table, todos: seq<Todo>): Table
    decreases |todos|
  {
    if todos == [] then rows
    else
      var last := todos[|todos| - 1];
      InsertAll(rows, todos[..|todos| - 1])[last.id := ToEntity(last)]
  }

  /** Inserting a list adds exactly its ids as keys. */
  lemma {:induction false} InsertAllKeys(rows: Table, todos: seq<Todo>)
    requires KeyedById(rows)
    ensures KeyedById(InsertAll(rows, todos))
    ensures InsertAll(rows, todos).Keys == rows.Keys + IdsOf(todos)
  {
    if todos != [] {
      var init, last := todos[..|todos| - 1], todos[|todos| - 1];
      InsertAllKeys(rows, init);
      var mid := InsertAll(rows, init);
      assert InsertAll(rows, todos) == mid[last.id := ToEntity(last)];
      IdsOfSnoc(todos);
    }
  }

  /** Inserting consistent records keeps the store consistent. */
  lemma {:induction false} InsertAllConsistent(rows: Table, todos: seq<Todo>)
    requires StoreConsistent(rows)
    requires forall i :: 0 <= i < |todos| ==> CompletedAtConsistent(todos[i])
    ensures StoreConsistent(InsertAll(rows, todos))
  {
    if todos != [] {
      var init, last := todos[..|todos| - 1], todos[|todos| - 1];
      assert forall i :: 0 <= i < |init| ==> init[i] == todos[i];
      InsertAllConsistent(rows, init);
      ConversionsRoundTrip(last, ToEntity(last));
    }
  }

  /** A record whose id no later record of the list repeats is stored as it
      is. */
  lemma {:induction false} InsertAllLookup(rows: Table, todos: seq<Todo>, i: nat)
    requires i < |todos|
    requires forall j :: i < j < |todos| ==> todos[j].id != todos[i].id
    ensures todos[i].id in InsertAll(rows, todos)
    ensures ToTodo(InsertAll(rows, todos)[todos[i].id]) == todos[i]
  {
    var init, last := todos[..|todos| - 1], todos[|todos| - 1];
    ConversionsRoundTrip(todos[i], ToEntity(todos[i]));
    if i < |todos| - 1 {
      InsertAllLookup(rows, init, i);
      assert todos[i] == init[i];
    }
  }

  /** The ids of four records. */
  lemma IdsOfFour(r: seq<Todo>)
    requires |r| == 4
    ensures IdsOf(r) == {r[0].id, r[1].id, r[2].id, r[3].id}
  {
    forall x | x in IdsOf(r) ensures x == r[0].id || x == r[1].id || x == r[2].id || x == r[3].id {
      var i :| 0 <= i < 4 && r[i].id == x;
      assert i == 0 || i == 1 || i == 2 || i == 3;
    }
    assert forall i :: 0 <= i < 4 ==> r[i].id in IdsOf(r);
  }

  /** Four records, inserted into an empty table, give the keys of their
      four ids. */
  lemma FourKeys(r: seq<Todo>)
    requires |r| == 4
    ensures InsertAll(map[], r).Keys == {r[0].id, r[1].id, r[2].id, r[3].id}
  {
    InsertAllKeys(map[], r);
    IdsOfFour(r);
  }

  /** Four records under distinct ids, inserted into an empty table, give
      one row per record. */
  lemma FourRows(r: seq<Todo>)
    requires |r| == 4 && forall i, j :: 0 <= i < j < 4 ==> r[i].id != r[j].id
    ensures var t := InsertAll(map[], r);
            t.Keys == {r[0].id, r[1].id, r[2].id, r[3].id}
            && forall i :: 0 <= i < 4 ==> ToTodo(t[r[i].id]) == r[i]
  {
    FourKeys(r);
    forall i | 0 <= i < 4 ensures ToTodo(InsertAll(map[], r)[r[i].id]) == r[i] {
      InsertAllLookup(map[], r, i);
    }
  }

  /** One step of each filter. */
  lemma FiltersStep(r: seq<Todo>)
    requires r != []
    ensures Incomplete(r) == (if r[0].isCompleted then [] else [r[0]]) + Incomplete(r[1..])
    ensures Completed(r) == (if r[0].isCompleted then [r[0]] else []) + Completed(r[1..])
  {
  }

  /** Both sample lists alternate an open and a done task. */
  predicate Alternating(r: seq<Todo>) {
    |r| == 4 && !r[0].isCompleted && r[1].isCompleted && !r[2].isCompleted && r[3].isCompleted
  }

  /** The sections of such a list. */
  lemma AlternatingSections(r: seq<Todo>)
    requires Alternating(r)
    ensures Incomplete(r) == [r[0], r[2]] && Completed(r) == [r[1], r[3]]
    ensures IncompleteCount(r) == 2
  {
    var s1, s2, s3 := r[1..], r[2..], r[3..];
    assert s3[1..] == [] && s2[1..] == s3 && s1[1..] == s2 && r[1..] == s1;
    FiltersStep(s3);
    assert Incomplete(s3) == [] && Completed(s3) == [r[3]];
    FiltersStep(s2);
    assert Incomplete(s2) == [r[2]] && Completed(s2) == [r[3]];
    FiltersStep(s1);
    assert Incomplete(s1) == [r[2]] && Completed(s1) == [r[1], r[3]];
    FiltersStep(r);
    IncompleteCountIsFilter(r);
  }

  /** Four distinct ids make four rows. */
  lemma FourRowsCount(r: seq<Todo>)
    requires |r| == 4 && forall i, j :: 0 <= i < j < 4 ==> r[i].id != r[j].id
    ensures |InsertAll(map[], r)| == 4
  {
    FourKeys(r);
    var t := InsertAll(map[], r);
    assert t.Keys == {r[0].id} + {r[1].id} + {r[2].id} + {r[3].id};
    assert |t.Keys| == 4;
  }

  /** Such a list under four distinct ids, inserted into an empty table,
      gives four rows, two open and two done. */
  lemma AlternatingRows(r: seq<Todo>)
    requires Alternating(r) && forall i, j :: 0 <= i < j < 4 ==> r[i].id != r[j].id
    ensures var t := InsertAll(map[], r);
            |t| == 4
            && IdsWhere(t, IncompleteRows) == {r[0].id, r[2].id}
            && IdsWhere(t, CompletedRows) == {r[1].id, r[3].id}
  {
    var t := InsertAll(map[], r);
    FourRows(r);
    FourRowsCount(r);
    forall i | 0 <= i < 4 ensures t[r[i].id].isCompleted == r[i].isCompleted {
      assert ToTodo(t[r[i].id]) == r[i];
    }
  }
}
