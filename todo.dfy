/** The task record of the application (`com.example.tasks.data`): the ordered
    priority levels, subtasks, and the flags derived from a task. Timestamps
    are milliseconds since the epoch; the clock is the parameter `now`. */
module Todos {
  import opened Wrappers

  /** Milliseconds in the 24 hours of the "due soon" window. */
  const DAY_MILLIS: int := 24 * 60 * 60 * 1000

  const LONG_MIN: int := -0x8000_0000_0000_0000
  const LONG_MAX: int := 0x7FFF_FFFF_FFFF_FFFF

  /** Kotlin's `Long`. */
  type Long = x: int | LONG_MIN <= x <= LONG_MAX

  /** Two's-complement wrap-around into `Long`, as `Long` arithmetic does on
      overflow. */
  function WrapLong(x: int): (r: Long)
    ensures LONG_MIN <= x <= LONG_MAX ==> r == x
    ensures (r - x) % 0x1_0000_0000_0000_0000 == 0
  {
    (x - LONG_MIN) % 0x1_0000_0000_0000_0000 + LONG_MIN
  }

  /** The four priority levels in declaration order; the display label and
      colour are presentation only. */
  datatype Priority = LOW | MEDIUM | HIGH | URGENT {
    /** `Priority.ordinal`. */
    function Ordinal(): nat {
      match this
      case LOW => 0
      case MEDIUM => 1
      case HIGH => 2
      case URGENT => 3
    }

    /** `Priority.name`. */
    function Name(): string {
      match this
      case LOW => "LOW"
      case MEDIUM => "MEDIUM"
      case HIGH => "HIGH"
      case URGENT => "URGENT"
    }
  }

  /** `Priority.valueOf(name)`: the level whose name is exactly `name`;
      `None` is the `IllegalArgumentException` thrown for any other string. */
  function ValueOf(name: string): (r: Option<Priority>)
    ensures r.Some? ==> r.value.Name() == name
    ensures r.None? ==> forall p: Priority :: p.Name() != name
  {
    if name == "LOW" then Some(LOW)
    else if name == "MEDIUM" then Some(MEDIUM)
    else if name == "HIGH" then Some(HIGH)
    else if name == "URGENT" then Some(URGENT)
    else None
  }

  /** The ordinals are strictly increasing in declaration order, so they
      tell the four levels apart. */
  lemma PriorityOrdinalsOrdered(p: Priority, q: Priority)
    ensures LOW.Ordinal() < MEDIUM.Ordinal() < HIGH.Ordinal() < URGENT.Ordinal()
    ensures p.Ordinal() == q.Ordinal() <==> p == q
    ensures p.Ordinal() <= 3
  {
  }

  /** A checklist line owned by its task. */
  datatype SubTask = SubTask(id: string, title: string, isCompleted: bool, createdAt: Long)

  /** The task record: the nine fields of the `Todo` data class. */
  datatype Todo = Todo(
    id: string,
    title: string,
    description: string,
    isCompleted: bool,
    priority: Priority,
    dueDate: Option<Long>,
    subTasks: seq<SubTask>,
    createdAt: Long,
    completedAt: Option<Long>)

  /** `SubTask(id = <fresh>, title = title)`: the defaults of the data class,
      with the fresh id and the clock supplied by the caller. */
  function NewSubTask(id: string, title: string, now: Long): (s: SubTask)
    ensures s.id == id && s.title == title && s.createdAt == now
    ensures !s.isCompleted
  {
    SubTask(id, title, false, now)
  }

  /** The record invariant: a completion time is present exactly when the
      task is completed. */
  predicate CompletedAtConsistent(t: Todo) {
    t.completedAt.Some? <==> t.isCompleted
  }

  /** `Todo(title = title)` with every other field at its default. */
  function NewTodo(id: string, title: string, now: Long): (t: Todo)
    ensures t.id == id && t.title == title && t.description == "" && t.createdAt == now
    ensures !t.isCompleted && t.completedAt == None && t.dueDate == None
    ensures t.priority == MEDIUM && t.subTasks == []
    ensures CompletedAtConsistent(t)
    ensures forall when :: !IsOverdue(t, when) && !IsDueSoon(t, when)
  {
    Todo(id, title, "", false, MEDIUM, None, [], now, None)
  }

  /** `completedSubTasksCount`: how many subtasks are checked. */
  function CompletedSubTasksCount(subs: seq<SubTask>): (n: nat)
    ensures n <= |subs|
    ensures n == 0 <==> forall i :: 0 <= i < |subs| ==> !subs[i].isCompleted
    ensures n == |subs| <==> forall i :: 0 <= i < |subs| ==> subs[i].isCompleted
  {
    if subs == [] then 0
    else
      var rest := CompletedSubTasksCount(subs[1..]);
      assert forall i :: 1 <= i < |subs| ==> subs[i] == subs[1..][i - 1];
      (if subs[0].isCompleted then 1 else 0) + rest
  }

  /** The positions of the checked subtasks. */
  function CompletedPositions(subs: seq<SubTask>): set<int> {
    set i | 0 <= i < |subs| && subs[i].isCompleted
  }

  /** The count is the number of positions holding a checked subtask. */
  lemma CompletedSubTasksCountIsPositions(subs: seq<SubTask>)
    ensures CompletedSubTasksCount(subs) == |CompletedPositions(subs)|
  {
    CompletedSuffixCount(subs, 0);
    assert subs[0..] == subs;
  }

  /** The same, for the suffix that starts at `from`. */
  lemma {:induction false} CompletedSuffixCount(subs: seq<SubTask>, from: nat)
    requires from <= |subs|
    ensures CompletedSubTasksCount(subs[from..]) == |set i | from <= i < |subs| && subs[i].isCompleted|
    decreases |subs| - from
  {
    if from < |subs| {
      CompletedSuffixCount(subs, from + 1);
      assert subs[from..][1..] == subs[from + 1..];
      var later := set i | from + 1 <= i < |subs| && subs[i].isCompleted;
      if subs[from].isCompleted {
        assert (set i | from <= i < |subs| && subs[i].isCompleted) == later + {from};
      } else {
        assert (set i | from <= i < |subs| && subs[i].isCompleted) == later;
      }
    }
  }

  /** A fraction `num / den`, standing for the `Float` of the source. */
  datatype Ratio = Ratio(num: nat, den: nat)

  /** `subTaskProgress`: 1 without subtasks, otherwise checked / total; it
      lies in [0, 1], reaches 1 exactly when every subtask is checked, and 0
      exactly when there are subtasks and none is checked. */
  function SubTaskProgress(t: Todo): (r: Ratio)
    ensures r.den > 0 && r.num <= r.den
    ensures t.subTasks == [] ==> r.num == r.den
    ensures t.subTasks != [] ==> r.num == CompletedSubTasksCount(t.subTasks) && r.den == |t.subTasks|
    ensures r.num == r.den <==> forall i :: 0 <= i < |t.subTasks| ==> t.subTasks[i].isCompleted
    ensures r.num == 0 <==> t.subTasks != [] && forall i :: 0 <= i < |t.subTasks| ==> !t.subTasks[i].isCompleted
  {
    if t.subTasks == [] then Ratio(1, 1)
    else Ratio(CompletedSubTasksCount(t.subTasks), |t.subTasks|)
  }

  /** `isOverdue`: a due date in the past and not completed. */
  predicate IsOverdue(t: Todo, now: Long) {
    t.dueDate.Some? && t.dueDate.value < now && !t.isCompleted
  }

  /** `isDueSoon`: not completed and due within the next 24 hours; the end
      of the window is a `Long` sum, so it wraps for a clock within a day of
      `Long.MAX_VALUE`. */
  predicate IsDueSoon(t: Todo, now: Long) {
    t.dueDate.Some? && !t.isCompleted && t.dueDate.value > now && t.dueDate.value <= WrapLong(now + DAY_MILLIS)
  }

  /** A task is never both overdue and due soon, and a completed task is
      neither; an open task with a due date in the next day but not in the
      past is exactly the due-soon case. */
  lemma DueFlagsExclusive(t: Todo, now: Long)
    ensures !(IsOverdue(t, now) && IsDueSoon(t, now))
    ensures t.isCompleted ==> !IsOverdue(t, now) && !IsDueSoon(t, now)
    ensures IsOverdue(t, now) || IsDueSoon(t, now) ==> t.dueDate.Some? && t.dueDate.value != now
    ensures now + DAY_MILLIS <= LONG_MAX ==>
              (IsDueSoon(t, now) <==> !t.isCompleted && t.dueDate.Some? && now < t.dueDate.value <= now + DAY_MILLIS)
  {
  }
}
