/** `TodoRepository`: the record conversions between the task model and the
    database row, and the repository that forwards every operation to the
    DAO on converted records. A `Flow` read is one emission. */
module Repository {
  import opened Wrappers
  import opened Todos
  import opened TodoEntities
  import opened Sorting
  import opened TodoDatabase

  /** `TodoEntity.toTodo`: field by field. */
  function ToTodo(e: TodoEntity): Todo {
    Todo(e.id, e.title, e.description, e.isCompleted, e.priority, e.dueDate,
         e.subTasks, e.createdAt, e.completedAt)
  }

  /** `Todo.toEntity`: field by field. */
  function ToEntity(t: Todo): TodoEntity {
    TodoEntity(t.id, t.title, t.description, t.isCompleted, t.priority, t.dueDate,
               t.subTasks, t.createdAt, t.completedAt)
  }

  /** The two conversions are inverse to each other, so neither loses a
      field, and both keep the primary key. */
  lemma ConversionsRoundTrip(t: Todo, e: TodoEntity)
    ensures ToTodo(ToEntity(t)) == t
    ensures ToEntity(ToTodo(e)) == e
    ensures ToEntity(t).id == t.id && ToTodo(e).id == e.id
    ensures ToEntity(t).isCompleted == t.isCompleted && ToTodo(e).completedAt == e.completedAt
  {
  }

  /** Distinct tasks give distinct rows. */
  lemma ToEntityInjective(t: Todo, u: Todo)
    ensures ToEntity(t) == ToEntity(u) ==> t == u
  {
    ConversionsRoundTrip(t, ToEntity(t));
    ConversionsRoundTrip(u, ToEntity(u));
  }

  /** `entities.map { it.toTodo() }`. */
  function ToTodos(es: seq<TodoEntity>): (r: seq<Todo>)
    ensures |r| == |es|
    ensures forall i :: 0 <= i < |es| ==> r[i] == ToTodo(es[i])
  {
    if es == [] then [] else [ToTodo(es[0])] + ToTodos(es[1..])
  }

  /** A task occurs in the converted list as often as its row occurs in
      the DAO's list. */
  lemma {:induction false} ToTodosCount(es: seq<TodoEntity>, t: Todo)
    ensures multiset(ToTodos(es))[t] == multiset(es)[ToEntity(t)]
  {
    if es != [] {
      ToTodosCount(es[1..], t);
      ConversionsRoundTrip(t, es[0]);
      var same := ToTodo(es[0]) == t;
      assert same <==> es[0] == ToEntity(t);
      assert es == [es[0]] + es[1..];
      assert multiset(es)[ToEntity(t)] == (if same then 1 else 0) + multiset(es[1..])[ToEntity(t)];
      assert ToTodos(es) == [ToTodo(es[0])] + ToTodos(es[1..]);
      assert multiset(ToTodos(es))[t] == (if same then 1 else 0) + multiset(ToTodos(es[1..]))[t];
    }
  }

  /** Mapping by ToTodo carries a permutation over. */
  lemma ToTodosMultiset(es: seq<TodoEntity>, fs: seq<TodoEntity>)
    requires multiset(es) == multiset(fs)
    ensures multiset(ToTodos(es)) == multiset(ToTodos(fs))
  {
    forall t ensures multiset(ToTodos(es))[t] == multiset(ToTodos(fs))[t] {
      ToTodosCount(es, t);
      ToTodosCount(fs, t);
    }
  }

  /** The tasks of a set of rows. */
  function TodosOf(rows: set<TodoEntity>): (r: set<Todo>)
    ensures forall t :: t in r <==> ToEntity(t) in rows
  {
    var r := set e | e in rows :: ToTodo(e);
    forall t ensures t in r <==> ToEntity(t) in rows {
      ConversionsRoundTrip(t, ToEntity(t));
      if t in r {
        var e :| e in rows && ToTodo(e) == t;
        ConversionsRoundTrip(t, e);
      }
    }
    r
  }

  /** A list holding a set of rows once each, converted, holds the set's
      tasks once each. */
  lemma ToTodosOfSet(es: seq<TodoEntity>, rows: set<TodoEntity>)
    requires multiset(es) == multiset(rows)
    ensures multiset(ToTodos(es)) == multiset(TodosOf(rows))
  {
    forall t ensures multiset(ToTodos(es))[t] == multiset(TodosOf(rows))[t] {
      ToTodosCount(es, t);
    }
  }

  /** ToTodos distributes over concatenation. */
  lemma ToTodosAppend(a: seq<TodoEntity>, b: seq<TodoEntity>)
    ensures ToTodos(a + b) == ToTodos(a) + ToTodos(b)
  {
    assert |ToTodos(a + b)| == |ToTodos(a) + ToTodos(b)|;
    forall i | 0 <= i < |a + b| ensures ToTodos(a + b)[i] == (ToTodos(a) + ToTodos(b))[i] {
      if i < |a| { assert (a + b)[i] == a[i]; } else { assert (a + b)[i] == b[i - |a|]; }
    }
  }

  class TodoRepository {
    /** The DAO every call goes to. */
    const dao: TodoDao

    ghost predicate Valid()
      reads this, dao
    {
      dao.Valid()
    }

    constructor (dao: TodoDao)
      requires dao.Valid()
      ensures this.dao == dao && Valid()
    {
      this.dao := dao;
    }

    /** `getAllTodos`: every stored task, converted, newest first. */
    method GetAllTodos() returns (r: seq<Todo>)
      requires Valid()
      ensures multiset(r) == multiset(TodosOf(RowsWhere(dao.rows, AllRows)))
      ensures forall i, j :: 0 <= i < j < |r| ==> r[i].createdAt >= r[j].createdAt
    {
      var es := dao.GetAllTodos();
      r := ToTodos(es);
      ToTodosOfSet(es, RowsWhere(dao.rows, AllRows));
      forall i, j | 0 <= i < j < |r| ensures r[i].createdAt >= r[j].createdAt {
        assert RankLe(CreatedAtDesc(es[i]), CreatedAtDesc(es[j]));
      }
    }

    /** `getTodoById`: null exactly when the DAO finds no row, and otherwise
        the converted row. */
    method GetTodoById(id: string) returns (r: Option<Todo>)
      requires Valid()
      ensures r.Some? <==> id in dao.rows
      ensures r.Some? ==> r.value == ToTodo(dao.rows[id]) && r.value.id == id
    {
      var row := dao.GetTodoById(id);
      r := if row.Some? then Some(ToTodo(row.value)) else None;
    }

    /** `getIncompleteTodos`: the open tasks, converted. */
    method GetIncompleteTodos() returns (r: seq<Todo>)
      requires Valid()
      ensures multiset(r) == multiset(TodosOf(RowsWhere(dao.rows, IncompleteRows)))
    {
      var es := dao.GetIncompleteTodos();
      r := ToTodos(es);
      ToTodosOfSet(es, RowsWhere(dao.rows, IncompleteRows));
    }

    /** `getCompletedTodos`: the finished tasks, converted, most recently
        completed first and those without a completion time last. */
    method GetCompletedTodos() returns (r: seq<Todo>)
      requires Valid()
      ensures multiset(r) == multiset(TodosOf(RowsWhere(dao.rows, CompletedRows)))
      ensures forall i, j :: 0 <= i < j < |r| && r[j].completedAt.Some? ==>
                r[i].completedAt.Some? && r[i].completedAt.value >= r[j].completedAt.value
    {
      var es := dao.GetCompletedTodos();
      r := ToTodos(es);
      ToTodosOfSet(es, RowsWhere(dao.rows, CompletedRows));
      forall i, j | 0 <= i < j < |r| && r[j].completedAt.Some?
        ensures r[i].completedAt.Some? && r[i].completedAt.value >= r[j].completedAt.value
      {
        assert RankLe(CompletedAtDesc(es[i]), CompletedAtDesc(es[j]));
      }
    }

    /** `insertTodo`: the DAO's upsert of the converted record. */
    method InsertTodo(t: Todo)
      requires Valid()
      modifies dao
      ensures Valid() && dao.rows == Upsert(old(dao.rows), ToEntity(t))
    {
      dao.InsertTodo(ToEntity(t));
    }

    /** `updateTodo`: the DAO's update of the converted record. */
    method UpdateTodo(t: Todo)
      requires Valid()
      modifies dao
      ensures Valid() && dao.rows == UpdateRow(old(dao.rows), ToEntity(t))
    {
      dao.UpdateTodo(ToEntity(t));
    }

    /** `deleteTodo`: the DAO's delete of the converted record, by its key. */
    method DeleteTodo(t: Todo)
      requires Valid()
      modifies dao
      ensures Valid() && dao.rows == DeleteRow(old(dao.rows), t.id)
    {
      dao.DeleteTodo(ToEntity(t));
    }

    /** `deleteTodoById`. */
    method DeleteTodoById(id: string)
      requires Valid()
      modifies dao
      ensures Valid() && dao.rows == DeleteRow(old(dao.rows), id)
    {
      dao.DeleteTodoById(id);
    }

    /** `deleteCompletedTodos`. */
    method DeleteCompletedTodos()
      requires Valid()
      modifies dao
      ensures Valid() && dao.rows == DeleteCompleted(old(dao.rows))
    {
      dao.DeleteCompletedTodos();
    }

    /** `getTodoCount`: the DAO's count. */
    method GetTodoCount() returns (n: nat)
      requires Valid()
      ensures n == |dao.rows|
    {
      n := dao.GetTodoCount();
    }

    /** `getIncompleteCount`: the DAO's count. */
    method GetIncompleteCount() returns (n: nat)
      requires Valid()
      ensures n == |IdsWhere(dao.rows, IncompleteRows)|
    {
      n := dao.GetIncompleteCount();
    }

    /** `getCompletedCount`: the DAO's count. */
    method GetCompletedCount() returns (n: nat)
      requires Valid()
      ensures n == |IdsWhere(dao.rows, CompletedRows)|
    {
      n := dao.GetCompletedCount();
    }
  }
}
