/** The `todos` table behind the Room DAO `TodoDao`: rows keyed by their
    primary key `id`, the REPLACE upsert, the deletes, the point lookup, the
    ordered and filtered reads and the three counts. A read of a `Flow`
    is modelled as one emission: the list the query gives on the current
    table. */
module TodoDatabase {
  import opened Wrappers
  import opened Todos
  import opened TodoEntities
  import opened Sorting

  /** The table contents: primary key to row. */
  type Table = map<string, TodoEntity>

  /** Every row is stored under its own primary key. */
  predicate KeyedById(t: Table) {
    forall k :: k in t ==> t[k].id == k
  }

  /** The `WHERE` clauses of the queries. */
  datatype Where = AllRows | IncompleteRows | CompletedRows

  predicate Matches(e: TodoEntity, w: Where) {
    match w
    case AllRows => true
    case IncompleteRows => !e.isCompleted
    case CompletedRows => e.isCompleted
  }

  /** The primary keys of the rows a `WHERE` clause selects. */
  function IdsWhere(t: Table, w: Where): set<string> {
    set k | k in t && Matches(t[k], w)
  }

  /** The rows a `WHERE` clause selects. */
  function RowsWhere(t: Table, w: Where): set<TodoEntity> {
    set k | k in t && Matches(t[k], w) :: t[k]
  }

  /** `ORDER BY createdAt DESC`. */
  function CreatedAtDesc(e: TodoEntity): Rank {
    Rank(-(e.createdAt as int), 0)
  }

  /** `ORDER BY completedAt DESC`; SQLite puts NULL below every value, so a
      missing completion time sorts last. */
  function CompletedAtDesc(e: TodoEntity): Rank {
    match e.completedAt
    case None => Rank(1, 0)
    case Some(c) => Rank(0, -(c as int))
  }

  /** The two filtered counts add up to the total count. */
  lemma CountsAddUp(t: Table)
    ensures |IdsWhere(t, AllRows)| == |t|
    ensures |t| == |IdsWhere(t, IncompleteRows)| + |IdsWhere(t, CompletedRows)|
  {
    assert IdsWhere(t, AllRows) == t.Keys;
    assert t.Keys == IdsWhere(t, IncompleteRows) + IdsWhere(t, CompletedRows);
    assert IdsWhere(t, IncompleteRows) * IdsWhere(t, CompletedRows) == {};
  }

  /** `@Insert(onConflict = REPLACE)`: afterwards the row under `e.id` is `e`
      and every other row is as it was. */
  function Upsert(t: Table, e: TodoEntity): (r: Table)
    ensures e.id in r && r[e.id] == e
    ensures r.Keys == t.Keys + {e.id}
    ensures forall k :: k != e.id ==> (k in r <==> k in t)
    ensures forall k :: k != e.id && k in t ==> r[k] == t[k]
    ensures KeyedById(t) ==> KeyedById(r)
    ensures |r| == if e.id in t then |t| else |t| + 1
  {
    t[e.id := e]
  }

  /** Upserting a row under an unused key adds exactly that key to the
      selection of every `WHERE` clause the row matches. */
  lemma UpsertNewSelects(t: Table, e: TodoEntity, w: Where)
    requires e.id !in t
    ensures IdsWhere(Upsert(t, e), w) == IdsWhere(t, w) + (if Matches(e, w) then {e.id} else {})
  {
    var r := Upsert(t, e);
    forall k | k in IdsWhere(r, w) ensures k in IdsWhere(t, w) + (if Matches(e, w) then {e.id} else {}) {
      if k != e.id { assert r[k] == t[k]; }
    }
    forall k | k in IdsWhere(t, w) ensures k in IdsWhere(r, w) {
      assert r[k] == t[k];
    }
  }

  /** An open row under an unused key joins the incomplete rows and leaves
      the completed rows as they were. */
  lemma UpsertOpenRow(t: Table, e: TodoEntity)
    requires e.id !in t && !e.isCompleted
    ensures IdsWhere(Upsert(t, e), IncompleteRows) == IdsWhere(t, IncompleteRows) + {e.id}
    ensures IdsWhere(Upsert(t, e), CompletedRows) == IdsWhere(t, CompletedRows)
  {
    UpsertNewSelects(t, e, IncompleteRows);
    UpsertNewSelects(t, e, CompletedRows);
  }

  /** `@Update`: replaces the row with the same primary key; without one it
      changes nothing. */
  function UpdateRow(t: Table, e: TodoEntity): (r: Table)
    ensures r.Keys == t.Keys
    ensures e.id in t ==> r[e.id] == e
    ensures forall k :: k in t && k != e.id ==> r[k] == t[k]
    ensures KeyedById(t) ==> KeyedById(r)
  {
    if e.id in t then t[e.id := e] else t
  }

  /** `DELETE FROM todos WHERE id = :id`, and `@Delete`, which matches on the
      primary key only: no row keeps `id`, every other row stays. */
  function DeleteRow(t: Table, id: string): (r: Table)
    ensures id !in r
    ensures forall k :: k != id ==> (k in r <==> k in t)
    ensures forall k :: k in r ==> r[k] == t[k]
    ensures KeyedById(t) ==> KeyedById(r)
    ensures |r| == if id in t then |t| - 1 else |t|
  {
    t - {id}
  }

  /** `DELETE FROM todos WHERE isCompleted = 1`: exactly the incomplete rows
      remain, unchanged. */
  function DeleteCompleted(t: Table): (r: Table)
    ensures r.Keys == IdsWhere(t, IncompleteRows)
    ensures forall k :: k in r ==> r[k] == t[k]
    ensures IdsWhere(r, CompletedRows) == {}
    ensures IdsWhere(r, IncompleteRows) == IdsWhere(t, IncompleteRows)
    ensures KeyedById(t) ==> KeyedById(r)
  {
    map k | k in t && !t[k].isCompleted :: t[k]
  }

  /** Deleting the completed rows and then counting is counting the
      incomplete rows before. */
  lemma DeleteCompletedCounts(t: Table)
    ensures |DeleteCompleted(t)| == |IdsWhere(t, IncompleteRows)|
    ensures |IdsWhere(DeleteCompleted(t), CompletedRows)| == 0
  {
    assert DeleteCompleted(t).Keys == IdsWhere(t, IncompleteRows);
  }

  /** A selected row is stored under its own id and matches the clause. */
  lemma RowsWhereKeyed(t: Table, w: Where)
    requires KeyedById(t)
    ensures forall e :: e in RowsWhere(t, w) ==> e.id in t && t[e.id] == e && Matches(e, w)
  {
  }

  /** The selected rows among those stored under `keys`. */
  function Picked(t: Table, keys: set<string>, w: Where): set<TodoEntity>
    requires keys <= t.Keys
  {
    set k | k in keys && Matches(t[k], w) :: t[k]
  }

  /** Visiting one more key adds its row, if selected, and that row was not
      picked before. */
  lemma PickedAdd(t: Table, keys: set<string>, k: string, w: Where)
    requires KeyedById(t) && keys <= t.Keys && k in t && k !in keys
    ensures Matches(t[k], w) ==> multiset(Picked(t, keys + {k}, w)) == multiset(Picked(t, keys, w)) + multiset{t[k]}
    ensures !Matches(t[k], w) ==> Picked(t, keys + {k}, w) == Picked(t, keys, w)
  {
    if Matches(t[k], w) {
      assert t[k] !in Picked(t, keys, w);
      assert Picked(t, keys + {k}, w) == Picked(t, keys, w) + {t[k]};
    } else {
      assert Picked(t, keys + {k}, w) == Picked(t, keys, w);
    }
  }

  /** `r` holds, each once, the selected rows among those under `visited`,
      each stored under its own key. */
  predicate SelectedSoFar(t: Table, visited: set<string>, w: Where, r: seq<TodoEntity>)
    requires visited <= t.Keys
  {
    && multiset(r) == multiset(Picked(t, visited, w))
    && forall i :: 0 <= i < |r| ==> r[i].id in t && t[r[i].id] == r[i] && Matches(r[i], w)
  }

  /** Visiting one more key keeps SelectedSoFar, appending its row when it
      is selected. */
  lemma SelectStep(t: Table, visited: set<string>, k: string, w: Where, r: seq<TodoEntity>)
    requires KeyedById(t) && visited <= t.Keys && k in t && k !in visited
    requires SelectedSoFar(t, visited, w, r)
    ensures SelectedSoFar(t, visited + {k}, w, if Matches(t[k], w) then r + [t[k]] else r)
  {
    PickedAdd(t, visited, k, w);
    if Matches(t[k], w) {
      var r' := r + [t[k]];
      assert multiset(r') == multiset(r) + multiset{t[k]};
      assert forall i :: 0 <= i < |r| ==> r'[i] == r[i];
    }
  }

  /** Visiting every key picks exactly the selected rows. */
  lemma PickedAll(t: Table, w: Where)
    ensures Picked(t, t.Keys, w) == RowsWhere(t, w)
  {
  }

  class TodoDao {
    /** The table contents. */
    var rows: Table

    ghost predicate Valid()
      reads this
    {
      KeyedById(rows)
    }

    /** An empty table. */
    constructor ()
      ensures Valid() && rows == map[]
    {
      rows := map[];
    }

    /** The rows a `WHERE` clause selects, each once, in the order the keys
        happen to be visited. */
    method Select(w: Where) returns (r: seq<TodoEntity>)
      requires Valid()
      ensures multiset(r) == multiset(RowsWhere(rows, w))
      ensures forall i :: 0 <= i < |r| ==> r[i].id in rows && rows[r[i].id] == r[i] && Matches(r[i], w)
    {
      r := [];
      var left := rows.Keys;
      while left != {}
        invariant left <= rows.Keys
        invariant SelectedSoFar(rows, rows.Keys - left, w, r)
        decreases left
      {
        var k :| k in left;
        SelectStep(rows, rows.Keys - left, k, w, r);
        assert rows.Keys - (left - {k}) == (rows.Keys - left) + {k};
        if Matches(rows[k], w) {
          r := r + [rows[k]];
        }
        left := left - {k};
      }
      assert rows.Keys - left == rows.Keys;
      PickedAll(rows, w);
    }

    /** `SELECT * FROM todos ORDER BY createdAt DESC`: every row once, newest
        first; rows created at the same instant come in no promised order. */
    method GetAllTodos() returns (r: seq<TodoEntity>)
      requires Valid()
      ensures multiset(r) == multiset(RowsWhere(rows, AllRows))
      ensures SortedBy(r, CreatedAtDesc)
    {
      var selected := Select(AllRows);
      r := InsertionSort(selected, CreatedAtDesc);
    }

    /** `SELECT * FROM todos WHERE id = :id`: the row or null. */
    method GetTodoById(id: string) returns (r: Option<TodoEntity>)
      requires Valid()
      ensures r.Some? <==> id in rows
      ensures r.Some? ==> r.value == rows[id] && r.value.id == id
    {
      r := if id in rows then Some(rows[id]) else None;
    }

    /** `SELECT * FROM todos WHERE isCompleted = 0 ORDER BY priority DESC,
        dueDate ASC`: exactly the incomplete rows, each once. */
    method GetIncompleteTodos() returns (r: seq<TodoEntity>)
      requires Valid()
      ensures multiset(r) == multiset(RowsWhere(rows, IncompleteRows))
    {
      r := Select(IncompleteRows);
    }

    /** `SELECT * FROM todos WHERE isCompleted = 1 ORDER BY completedAt DESC`:
        exactly the completed rows, each once, latest completion first. */
    method GetCompletedTodos() returns (r: seq<TodoEntity>)
      requires Valid()
      ensures multiset(r) == multiset(RowsWhere(rows, CompletedRows))
      ensures SortedBy(r, CompletedAtDesc)
    {
      var selected := Select(CompletedRows);
      r := InsertionSort(selected, CompletedAtDesc);
    }

    /** `insertTodo`, with `OnConflictStrategy.REPLACE`. */
    method InsertTodo(e: TodoEntity)
      requires Valid()
      modifies this
      ensures Valid() && rows == Upsert(old(rows), e)
    {
      rows := rows[e.id := e];
    }

    /** `updateTodo` (`@Update`). */
    method UpdateTodo(e: TodoEntity)
      requires Valid()
      modifies this
      ensures Valid() && rows == UpdateRow(old(rows), e)
    {
      if e.id in rows {
        rows := rows[e.id := e];
      }
    }

    /** `deleteTodo` (`@Delete`): deletes by the entity's primary key. */
    method DeleteTodo(e: TodoEntity)
      requires Valid()
      modifies this
      ensures Valid() && rows == DeleteRow(old(rows), e.id)
    {
      rows := rows - {e.id};
    }

    /** `deleteTodoById`. */
    method DeleteTodoById(id: string)
      requires Valid()
      modifies this
      ensures Valid() && rows == DeleteRow(old(rows), id)
    {
      rows := rows - {id};
    }

    /** `deleteCompletedTodos`. */
    method DeleteCompletedTodos()
      requires Valid()
      modifies this
      ensures Valid() && rows == DeleteCompleted(old(rows))
    {
      rows := map k | k in rows && !rows[k].isCompleted :: rows[k];
    }

    /** `SELECT COUNT(*) FROM todos`. */
    method GetTodoCount() returns (n: nat)
      requires Valid()
      ensures n == |rows|
    {
      n := |rows|;
    }

    /** `SELECT COUNT(*) FROM todos WHERE isCompleted = 0`. */
    method GetIncompleteCount() returns (n: nat)
      requires Valid()
      ensures n == |IdsWhere(rows, IncompleteRows)|
      ensures n <= |rows|
    {
      n := |IdsWhere(rows, IncompleteRows)|;
      CountsAddUp(rows);
    }

    /** `SELECT COUNT(*) FROM todos WHERE isCompleted = 1`. */
    method GetCompletedCount() returns (n: nat)
      requires Valid()
      ensures n == |IdsWhere(rows, CompletedRows)|
      ensures n <= |rows|
    {
      n := |IdsWhere(rows, CompletedRows)|;
      CountsAddUp(rows);
    }
  }
}
