/** The database row for a task (table `todos`) and the Room type converters
    that store the priority as its enum name and the subtasks as a JSON
    blob. The JSON encoder and decoder are Gson, outside this model, so they
    are parameters. */
module TodoEntities {
  import opened Wrappers
  import opened Todos

  /** One row of `todos`: the nine task fields, `id` being the primary key. */
  datatype TodoEntity = TodoEntity(
    id: string,
    title: string,
    description: string,
    isCompleted: bool,
    priority: Priority,
    dueDate: Option<Long>,
    subTasks: seq<SubTask>,
    createdAt: Long,
    completedAt: Option<Long>)

  /** `Converters.fromPriority`: the column value of a priority. */
  function FromPriority(p: Priority): string {
    p.Name()
  }

  /** `Converters.toPriority`: `Priority.valueOf` of the column value, with no
      default; `None` is the exception thrown for a string that names no
      level. */
  function ToPriority(name: string): (r: Option<Priority>)
    ensures r.Some? <==> exists p: Priority :: FromPriority(p) == name
    ensures r.Some? ==> FromPriority(r.value) == name
  {
    var r := ValueOf(name);
    assert r.Some? ==> FromPriority(r.value) == name;
    r
  }

  /** Every priority survives a trip through its column value, and distinct
      priorities get distinct column values. */
  lemma PriorityColumnRoundTrip(p: Priority, q: Priority)
    ensures ToPriority(FromPriority(p)) == Some(p)
    ensures FromPriority(p) == FromPriority(q) ==> p == q
  {
  }

  /** The column value of a priority is one of the four enum names, and a
      lower-case name is not accepted by the converter. */
  lemma ToPriorityExamples()
    ensures ToPriority("URGENT") == Some(URGENT)
    ensures ToPriority("urgent") == None
    ensures ToPriority("") == None
  {
    assert FromPriority(URGENT) == "URGENT";
  }

  /** `Converters.fromSubTaskList`: the JSON text of the subtasks. */
  function FromSubTaskList(subs: seq<SubTask>, encode: seq<SubTask> -> string): string {
    encode(subs)
  }

  /** Whenever the JSON library reads back what it wrote, the subtask column
      round-trips. */
  lemma SubTaskListRoundTrip(subs: seq<SubTask>, encode: seq<SubTask> -> string,
                             decode: string -> Option<seq<SubTask>>)
    requires decode(encode(subs)) == Some(subs)
    ensures ToSubTaskList(FromSubTaskList(subs, encode), decode) == subs
  {
  }

  /** `Converters.toSubTaskList`: the decoded list, or the empty list when the
      decoder yields null. */
  function ToSubTaskList(json: string, decode: string -> Option<seq<SubTask>>): (r: seq<SubTask>)
    ensures decode(json).None? ==> r == []
    ensures decode(json).Some? ==> r == decode(json).value
  {
    decode(json).GetOr([])
  }
}
