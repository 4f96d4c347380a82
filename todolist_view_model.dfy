/** The `todolist` variant of `TodoViewModel`: the screen state (add dialog,
    collapse flags, the task being edited), the collected task list, and the
    operations that write through the repository. A coroutine launched in
    `viewModelScope` is modelled as running to completion inside the call;
    the `todos` StateFlow is the field `todos`, refreshed by `Collect`. */
module TodoListViewModel {
  import opened Wrappers
  import opened KotlinText
  import opened Todos
  import opened Sorting
  import opened TodoEntities
  import opened TodoDatabase
  import opened Repository
  import opened TaskOps

  /** The values of the view-model's `MutableStateFlow`s other than `todos`. */
  datatype UiState = UiState(
    showAddDialog: bool,
    isIncompleteCollapsed: bool,
    isCompletedCollapsed: bool,
    editingTodo: Option<Todo>)

  /** The four records `initializeSampleData` inserts. Task `i` takes the id
      `newId(i)` and the subtasks the ids `newId(4)` to `newId(8)`; every
      creation time is `now`. */
  function SampleTodos(newId: nat -> string, now: Long): (r: seq<Todo>)
    ensures |r| == 4
    ensures forall i :: 0 <= i < 4 ==> r[i].id == newId(i) && r[i].createdAt == now
    ensures forall i :: 0 <= i < 4 ==> CompletedAtConsistent(r[i]) && r[i].title != []
  {
    [ Todo(newId(0), "App开发", "Todo List 待办清单开发", false, HIGH,
           Some(WrapLong(now + 2 * 24 * 60 * 60 * 1000)),
           [SubTask(newId(4), "App开发", true, now),
            NewSubTask(newId(5), "编写报告", now),
            NewSubTask(newId(6), "编写PPT", now)],
           now, None),
      Todo(newId(1), "吃饭", "提前半小时点外卖", true, LOW, None, [],
           now, Some(WrapLong(now - 60 * 60 * 1000))),
      Todo(newId(2), "锻炼身体", "跑步30分钟", false, MEDIUM,
           Some(WrapLong(now + 12 * 60 * 60 * 1000)), [], now, None),
      Todo(newId(3), "阅读书籍", "《Jetpack Compose实战》第3章", true, LOW, None,
           [SubTask(newId(7), "阅读第一节", true, now), SubTask(newId(8), "实践例子", true, now)],
           now, Some(WrapLong(now - 2 * 60 * 60 * 1000)))
    ]
  }

  /** Two sample tasks are open and two are done; the open ones come in
      priority order already. */
  lemma SampleTodosSections(newId: nat -> string, now: Long)
    ensures var r := SampleTodos(newId, now);
            IncompleteCount(r) == 2 && Incomplete(r) == [r[0], r[2]] && Completed(r) == [r[1], r[3]]
            && SortedBy(Incomplete(r), PriorityKey)
  {
    var r := SampleTodos(newId, now);
    AlternatingSections(r);
    assert RankLe(PriorityKey(r[0]), PriorityKey(r[2]));
  }

  /** On an empty table with four distinct task ids the samples give four
      consistent rows, one per sample under its own id, two open and two
      done. */
  lemma SampleTable(newId: nat -> string, now: Long)
    requires forall i: nat, j: nat :: i < j < 4 ==> newId(i) != newId(j)
    ensures var t := InsertAll(map[], SampleTodos(newId, now));
            StoreConsistent(t) && |t| == 4
            && IdsWhere(t, IncompleteRows) == {newId(0), newId(2)}
            && IdsWhere(t, CompletedRows) == {newId(1), newId(3)}
  {
    var r := SampleTodos(newId, now);
    AlternatingRows(r);
    InsertAllConsistent(map[], r);
  }

  class TodoViewModel {
    /** The repository every write goes to. */
    const repository: TodoRepository
    /** The last emission of `todos`. */
    var todos: seq<Todo>
    var showAddDialog: bool
    var isIncompleteCollapsed: bool
    var isCompletedCollapsed: bool
    var editingTodo: Option<Todo>

    /** The store behind the repository is keyed and consistent. */
    ghost predicate Valid()
      reads repository, repository.dao
    {
      repository.Valid() && StoreConsistent(repository.dao.rows)
    }

    /** The screen state as one value. */
    function Ui(): UiState
      reads this
    {
      UiState(showAddDialog, isIncompleteCollapsed, isCompletedCollapsed, editingTodo)
    }

    /** Every flag starts false, nothing is being edited, and the list starts
        as the flow's initial value, the empty list. */
    constructor (repository: TodoRepository)
      requires repository.Valid() && StoreConsistent(repository.dao.rows)
      ensures this.repository == repository && Valid()
      ensures todos == [] && Ui() == UiState(false, false, false, None)
    {
      this.repository := repository;
      todos := [];
      showAddDialog := false;
      isIncompleteCollapsed := false;
      isCompletedCollapsed := false;
      editingTodo := None;
    }

    /** One emission of `repository.getAllTodos()`: every stored task,
        converted, newest first. */
    method Collect()
      requires Valid()
      modifies this
      ensures Valid() && Ui() == old(Ui())
      ensures multiset(todos) == multiset(TodosOf(RowsWhere(repository.dao.rows, AllRows)))
      ensures forall i, j :: 0 <= i < j < |todos| ==> todos[i].createdAt >= todos[j].createdAt
    {
      todos := repository.GetAllTodos();
    }

    /** `addTodo`: a blank title is ignored; otherwise the trimmed record
        with the fresh id `id` and creation time `now` is inserted. */
    method AddTodo(id: string, now: Long, title: string, description: string, priority: Priority,
                   dueDate: Option<Long>, subTasks: seq<SubTask>)
      requires Valid()
      modifies repository.dao
      ensures Valid()
      ensures repository.dao.rows
              == AddTodoIn(old(repository.dao.rows), id, title, description, priority, dueDate, subTasks, now)
    {
      if !IsBlank(title) {
        ghost var rows := repository.dao.rows;
        var t := Todo(id, Trim(title), Trim(description), false, priority, dueDate, subTasks, now, None);
        assert ToEntity(t) == AddedRow(id, title, description, priority, dueDate, subTasks, now);
        repository.InsertTodo(t);
        assert repository.dao.rows == AddTodoIn(rows, id, title, description, priority, dueDate, subTasks, now);
      }
    }

    /** `toggleTodoCompletion`: an unknown id changes nothing. */
    method ToggleTodoCompletion(id: string, now: Long)
      requires Valid()
      modifies repository.dao
      ensures Valid() && repository.dao.rows == ToggleTodoIn(old(repository.dao.rows), id, now)
    {
      var todo := repository.GetTodoById(id);
      if todo.Some? {
        repository.UpdateTodo(Toggled(todo.value, now));
      }
    }

    /** `deleteTodo`. */
    method DeleteTodo(id: string)
      requires Valid()
      modifies repository.dao
      ensures Valid() && repository.dao.rows == DeleteRow(old(repository.dao.rows), id)
    {
      repository.DeleteTodoById(id);
    }

    /** `showAddDialog`. */
    method ShowAddDialog()
      modifies this
      ensures Ui() == old(Ui()).(showAddDialog := true) && todos == old(todos)
    {
      showAddDialog := true;
    }

    /** `hideAddDialog`. */
    method HideAddDialog()
      modifies this
      ensures Ui() == old(Ui()).(showAddDialog := false) && todos == old(todos)
    {
      showAddDialog := false;
    }

    /** `getIncompleteCount`: the open tasks in the collected list, which is
        the length of the open section of `sortTodosByPriority`. */
    method GetIncompleteCount() returns (n: nat)
      ensures n == |Incomplete(todos)| && n <= |todos|
      ensures n == |SortByPriority(todos)| - |Completed(todos)|
    {
      n := IncompleteCount(todos);
      IncompleteCountIsFilter(todos);
      FiltersPartition(todos);
    }

    /** `clearCompletedTodos`. */
    method ClearCompletedTodos()
      requires Valid()
      modifies repository.dao
      ensures Valid() && repository.dao.rows == DeleteCompleted(old(repository.dao.rows))
    {
      repository.DeleteCompletedTodos();
    }

    /** `toggleIncompleteCollapsed`. */
    method ToggleIncompleteCollapsed()
      modifies this
      ensures Ui() == old(Ui()).(isIncompleteCollapsed := !old(isIncompleteCollapsed)) && todos == old(todos)
    {
      isIncompleteCollapsed := !isIncompleteCollapsed;
    }

    /** `toggleCompletedCollapsed`. */
    method ToggleCompletedCollapsed()
      modifies this
      ensures Ui() == old(Ui()).(isCompletedCollapsed := !old(isCompletedCollapsed)) && todos == old(todos)
    {
      isCompletedCollapsed := !isCompletedCollapsed;
    }

    /** `startEditingTodo`. */
    method StartEditingTodo(t: Todo)
      modifies this
      ensures Ui() == old(Ui()).(editingTodo := Some(t)) && todos == old(todos)
    {
      editingTodo := Some(t);
    }

    /** `cancelEditingTodo`. */
    method CancelEditingTodo()
      modifies this
      ensures Ui() == old(Ui()).(editingTodo := None) && todos == old(todos)
    {
      editingTodo := None;
    }

    /** `updateTodo`: a blank title is ignored and leaves the editor open;
        otherwise the edit is written back if the task still exists, and the
        editor closes either way. */
    method UpdateTodo(id: string, title: string, description: string, priority: Priority,
                      dueDate: Option<Long>, subTasks: seq<SubTask>)
      requires Valid()
      modifies this, repository.dao
      ensures Valid() && todos == old(todos)
      ensures repository.dao.rows
              == EditTodoIn(old(repository.dao.rows), id, title, description, priority, dueDate, subTasks)
      ensures Ui() == if IsBlank(title) then old(Ui()) else old(Ui()).(editingTodo := None)
    {
      if IsBlank(title) {
        return;
      }
      WriteEdit(id, title, description, priority, dueDate, subTasks);
      editingTodo := None;
    }

    /** The coroutine of `updateTodo`: the edit is written back if the task
        still exists. */
    method WriteEdit(id: string, title: string, description: string, priority: Priority,
                     dueDate: Option<Long>, subTasks: seq<SubTask>)
      requires Valid() && !IsBlank(title)
      modifies repository.dao
      ensures Valid()
      ensures repository.dao.rows
              == EditTodoIn(old(repository.dao.rows), id, title, description, priority, dueDate, subTasks)
    {
      ghost var rows := repository.dao.rows;
      var todo := repository.GetTodoById(id);
      if todo.Some? {
        var edited := EditedTodo(todo.value, title, description, priority, dueDate, subTasks);
        repository.UpdateTodo(edited);
        assert repository.dao.rows == WithRecord(rows, edited);
      }
    }

    /** `toggleSubTaskCompletion`. */
    method ToggleSubTaskCompletion(id: string, subTaskId: string)
      requires Valid()
      modifies repository.dao
      ensures Valid() && repository.dao.rows == ToggleSubTaskIn(old(repository.dao.rows), id, subTaskId)
    {
      var todo := repository.GetTodoById(id);
      if todo.Some? {
        var t := todo.value;
        repository.UpdateTodo(t.(subTasks := ToggledSubTasks(t.subTasks, subTaskId)));
      }
    }

    /** `addSubTask`: the new subtask takes the fresh id `subTaskId` and the
        creation time `now`. */
    method AddSubTask(id: string, title: string, subTaskId: string, now: Long)
      requires Valid()
      modifies repository.dao
      ensures Valid() && repository.dao.rows == AddSubTaskIn(old(repository.dao.rows), id, title, subTaskId, now)
    {
      if IsBlank(title) {
        return;
      }
      var todo := repository.GetTodoById(id);
      if todo.Some? {
        var t := todo.value;
        repository.UpdateTodo(t.(subTasks := t.subTasks + [NewSubTask(subTaskId, Trim(title), now)]));
      }
    }

    /** `deleteSubTask`. */
    method DeleteSubTask(id: string, subTaskId: string)
      requires Valid()
      modifies repository.dao
      ensures Valid() && repository.dao.rows == DeleteSubTaskIn(old(repository.dao.rows), id, subTaskId)
    {
      var todo := repository.GetTodoById(id);
      if todo.Some? {
        var t := todo.value;
        repository.UpdateTodo(t.(subTasks := WithoutSubTask(t.subTasks, subTaskId)));
      }
    }

    /** `sortTodosByPriority`: a rearrangement of the collected list with the
        open tasks first, in priority order, then the completed ones. */
    method SortTodosByPriority() returns (r: seq<Todo>)
      ensures r == SortByPriority(todos)
      ensures multiset(r) == multiset(todos)
      ensures var n := |Incomplete(todos)|;
              n <= |r| && SortedBy(r[..n], PriorityKey) && r[n..] == Completed(todos)
    {
      var open := InsertionSort(Incomplete(todos), PriorityKey);
      r := open + Completed(todos);
    }

    /** `initializeSampleData`: on an empty table the four samples are
        inserted in list order; otherwise nothing happens. */
    method InitializeSampleData(newId: nat -> string, now: Long)
      requires Valid()
      modifies repository.dao
      ensures Valid()
      ensures old(|repository.dao.rows|) == 0 ==>
                repository.dao.rows == InsertAll(map[], SampleTodos(newId, now))
      ensures old(|repository.dao.rows|) != 0 ==> repository.dao.rows == old(repository.dao.rows)
    {
      var count := repository.GetTodoCount();
      if count == 0 {
        var samples := SampleTodos(newId, now);
        assert repository.dao.rows == map[];
        var i := 0;
        while i < |samples|
          invariant 0 <= i <= |samples|
          invariant repository.Valid()
          invariant repository.dao.rows == InsertAll(map[], samples[..i])
        {
          assert samples[..i + 1][..i] == samples[..i];
          repository.InsertTodo(samples[i]);
          i := i + 1;
        }
        assert samples[..i] == samples;
        InsertAllConsistent(map[], samples);
      }
    }
  }
}
