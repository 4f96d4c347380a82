# A verified model of the to-do list application's core

This project models, in Dafny, the plain sequential logic of an Android
to-do list application written in Kotlin:

- the task record (`Todo`, `SubTask`, the ordered `Priority` levels) and
  its derived read-only values: checked-subtask count, progress, "overdue"
  and "due soon";
- the post-processing of the chat model's reply in `AITaskParser`: cutting
  out the JSON object, reading the priority, subtasks and due date, the field
  defaults, and the wrapping of every failure into a `Result`;
- the Room table `todos` behind `TodoDao` (a class over a map keyed by the
  primary key), the row type `TodoEntity` with its type converters, and the
  `TodoRepository` that converts records and forwards to the DAO;
- both `TodoViewModel` variants (`tasks` and `todolist`): the screen flags,
  the read-modify-write task and subtask operations, and the client-side
  ordering `sortTodosByPriority`;
- the API-key preferences `AIPreferences` over a key/value store.

Files: `wrappers.dfy` (Option, Result), `kotlin_text.dfy` (the Kotlin string
functions used: `isBlank`, `trim`, `uppercase`, `indexOf`, `lastIndexOf`,
`substring`, `removeSurrounding`), `todo.dfy`, `ai_task_parser.dfy`,
`sorting.dfy` (a stable sort by key, proved equal to any stable sort),
`todo_entity.dfy`, `todo_dao.dfy`, `todo_repository.dfy`, `task_ops.dfy`
(the view-model operations on values, shared by both variants),
`tasks_view_model.dfy`, `todolist_view_model.dfy`, `ai_preferences.dfy`.

Conventions. The clock is a parameter `now`; UUIDs are ids supplied by the
caller (`newId(i)` for lists of fresh ids). The HTTP call is the parameter
`reply` of `ParseTask`; Gson's decoding and `SimpleDateFormat.parse` are
the function parameters `decode` and `parseDate`. A coroutine launched in
`viewModelScope` runs to completion inside the call; the `todos` StateFlow is
a field refreshed by `Collect`. Kotlin `Long` is the subtype `Long` of
`int`, with explicit two's-complement wrap-around (`WrapLong`) where the
source adds or multiplies `Long`s, and saturation where Gson's
`Number.toLong()` saturates. `subTaskProgress` (a `Float`) is a
numerator/denominator pair.

Toggling a completed task twice leaves it completed, with the second
toggle's time as `completedAt` (`TaskOps.ToggleTwice`), because the first
toggle clears the time and the second sets a fresh one. The modelled parser
reads dates with a single pattern.

The record shape is the nine-field `Todo` of `app/src/main/java/com/example/tasks/data/Todo.kt`;
`app/src/main/java/com/example/todolist/data/Todo.kt` is a stale six-field record inconsistent with the
repository, DAO and view-model of its own package, and is not modelled.

## Model

| member | source | states |
|---|---|---|
| Todos.PriorityOrdinalsOrdered | app/src/main/java/com/example/tasks/data/Todo.kt:8-13 | LOW < MEDIUM < HIGH < URGENT by ordinal, and equal ordinals mean equal levels |
| Todos.ValueOf | app/src/main/java/com/example/tasks/data/Todo.kt:8-13 | `Priority.valueOf`: the level whose name is exactly the string, none (the thrown exception) for any other string |
| Todos.WrapLong | app/src/main/java/com/example/tasks/data/Todo.kt:63 | `Long` arithmetic: the identity within range, otherwise congruent modulo 2^64 |
| Todos.NewSubTask | app/src/main/java/com/example/tasks/data/Todo.kt:18-23 | a new subtask has the given id, title and time and is not checked |
| Todos.NewTodo | app/src/main/java/com/example/tasks/data/Todo.kt:28-37 | a default task: not completed, no completedAt, no dueDate, MEDIUM, no subtasks, hence consistent and neither overdue nor due soon at any time |
| Todos.CompletedSubTasksCount | app/src/main/java/com/example/tasks/data/Todo.kt:42-43 | between 0 and the number of subtasks; 0 exactly when none is checked, all exactly when all are |
| Todos.CompletedSubTasksCountIsPositions | app/src/main/java/com/example/tasks/data/Todo.kt:42-43 | the count equals the number of positions holding a checked subtask |
| Todos.CompletedSuffixCount | app/src/main/java/com/example/tasks/data/Todo.kt:42-43 | the same for every suffix (the induction behind the previous row) |
| Todos.SubTaskProgress | app/src/main/java/com/example/tasks/data/Todo.kt:46-49 | 1 with no subtasks, otherwise checked/total; always within [0, 1]; 1 exactly when all are checked, 0 exactly when there are subtasks and none is checked |
| Todos.DueFlagsExclusive | app/src/main/java/com/example/tasks/data/Todo.kt:54-63 | never both overdue and due soon (`Todos.IsOverdue`: a due date before now on an open task; `Todos.IsDueSoon`: a due date within the next 24 hours on an open task); a completed task is neither; without wrap-around, due soon iff open and now < dueDate <= now + 86 400 000 |
| KotlinText.Trim | app/src/main/java/com/example/tasks/viewmodel/TodoViewModel.kt:58-62 | a slice of the input with only a blank prefix and a blank suffix cut away (blank as `KotlinText.IsBlank`: every character satisfies `KotlinText.IsWhitespace`, the JVM's `Char.isWhitespace`); empty exactly when the input is blank, and otherwise neither starts nor ends with whitespace |
| KotlinText.TrimSlice | app/src/main/java/com/example/tasks/viewmodel/TodoViewModel.kt:61 | cutting a blank prefix and then a blank suffix leaves a slice of the input between blank ends |
| KotlinText.TrimKeeps | app/src/main/java/com/example/tasks/viewmodel/TodoViewModel.kt:61 | a text with non-whitespace ends is its own trim |
| KotlinText.TrimStart | app/src/main/java/com/example/tasks/viewmodel/TodoViewModel.kt:61 | drops exactly a blank prefix, leaving a text that does not start with whitespace |
| KotlinText.TrimEnd | app/src/main/java/com/example/tasks/viewmodel/TodoViewModel.kt:61 | drops exactly a blank suffix, leaving a text that does not end with whitespace |
| KotlinText.TrimBlankIff | app/src/main/java/com/example/tasks/viewmodel/TodoViewModel.kt:58-62 | the trim is empty iff the original is blank (both directions) |
| KotlinText.TrimIdempotent | app/src/main/java/com/example/tasks/viewmodel/TodoViewModel.kt:61 | trimming twice is trimming once |
| KotlinText.TrimNotBlank | app/src/main/java/com/example/tasks/viewmodel/TodoViewModel.kt:58-62 | a title that passes the blank check stays non-blank after trimming |
| KotlinText.IndexOf | app/src/main/java/com/example/todolist/ai/AITaskParser.kt:105 | -1 iff the character is absent, otherwise the position of its first occurrence |
| KotlinText.LastIndexOf | app/src/main/java/com/example/todolist/ai/AITaskParser.kt:106 | -1 iff the character is absent, otherwise the position of its last occurrence |
| KotlinText.Substring | app/src/main/java/com/example/todolist/ai/AITaskParser.kt:107 | the slice when 0 <= begin <= end <= length, the out-of-bounds exception otherwise |
| KotlinText.RemoveSurrounding | app/src/main/java/com/example/todolist/ai/AITaskParser.kt:149 | strips one copy of the delimiter at each end exactly when the text is long enough for both copies and starts and ends with it; otherwise the text itself |
| AITaskParser.ExtractJson | app/src/main/java/com/example/todolist/ai/AITaskParser.kt:105-107 | succeeds iff there is a '{' and the last '}' is not more than one place before it, and then is exactly the text from the first '{' to the last '}' inclusive |
| AITaskParser.ExtractJsonCases | app/src/main/java/com/example/todolist/ai/AITaskParser.kt:105-107 | a non-empty extract starts with '{' and ends with '}' with no earlier '{' and no later '}'; the empty extract arises exactly when the last '}' sits just before the first '{'; no '{' fails |
| AITaskParser.ExtractJsonExamples | app/src/main/java/com/example/todolist/ai/AITaskParser.kt:105-107 | worked cases: "x{}y" gives "{}", "{" and "}{" give "", "}x{" and "x" fail |
| AITaskParser.StringField | app/src/main/java/com/example/todolist/ai/AITaskParser.kt:111-115 | `parsed[key] as? String`: present iff the key holds a string, and then that string (the raw lookup `parsed[key]` is `AITaskParser.Field`) |
| AITaskParser.ParsePriority | app/src/main/java/com/example/todolist/ai/AITaskParser.kt:123-129 | null gives MEDIUM; otherwise MEDIUM or the level whose name is the upper-cased string |
| AITaskParser.ParsePriorityIgnoresCase | app/src/main/java/com/example/todolist/ai/AITaskParser.kt:123-129 | any capitalisation of a level's name gives that level; a string matching no name ignoring case gives MEDIUM |
| AITaskParser.UppercaseOfName | app/src/main/java/com/example/todolist/ai/AITaskParser.kt:125 | a string equal to a level's name ignoring case upper-cases to that name (`KotlinText.Uppercase` maps `KotlinText.UpperChar` over the text; `KotlinText.EqualsIgnoreCase` compares upper cases pairwise) |
| AITaskParser.NameIsUppercase | app/src/main/java/com/example/todolist/ai/AITaskParser.kt:125 | a string that upper-cases to a level's name equals it ignoring case |
| AITaskParser.ParsePriorityOfName | app/src/main/java/com/example/todolist/ai/AITaskParser.kt:123-129 | `parsePriority(p.name) == p` for every level |
| AITaskParser.ParsePriorityExamples | app/src/main/java/com/example/todolist/ai/AITaskParser.kt:123-129 | "urgent" is URGENT, "High" is HIGH, "banana" and null are MEDIUM |
| AITaskParser.CleanTitleIsTrimmed | app/src/main/java/com/example/todolist/ai/AITaskParser.kt:137 | a kept subtask title (`AITaskParser.CleanTitle`: not blank and its own trim) is not blank and is its own trim |
| AITaskParser.MapNotNull | app/src/main/java/com/example/todolist/ai/AITaskParser.kt:136 | `mapNotNull` never lengthens the list |
| AITaskParser.MapNotNullAppend | app/src/main/java/com/example/todolist/ai/AITaskParser.kt:136 | `mapNotNull` of a concatenation is the concatenation of the results, so kept items keep their order |
| AITaskParser.MapNotNullAllSome | app/src/main/java/com/example/todolist/ai/AITaskParser.kt:136 | when the mapping keeps every item, `mapNotNull` keeps the length and maps item i to position i |
| AITaskParser.KeptTitle | app/src/main/java/com/example/todolist/ai/AITaskParser.kt:137 | an item that is kept gives a clean (non-blank, trimmed) title |
| AITaskParser.SubTaskTitles | app/src/main/java/com/example/todolist/ai/AITaskParser.kt:136-138 | no more titles than items |
| AITaskParser.SubTaskTitlesClean | app/src/main/java/com/example/todolist/ai/AITaskParser.kt:136-138 | every kept title is non-blank and trimmed |
| AITaskParser.SubTaskTitlesAppend | app/src/main/java/com/example/todolist/ai/AITaskParser.kt:136-138 | titles of a concatenation are the concatenated titles (order preserved) |
| AITaskParser.SubTaskTitlesSingle | app/src/main/java/com/example/todolist/ai/AITaskParser.kt:137 | one item gives its trimmed text if it is a non-blank string, nothing otherwise (non-strings dropped) |
| AITaskParser.SubTaskTitlesAllStrings | app/src/main/java/com/example/todolist/ai/AITaskParser.kt:136-138 | a list of non-blank strings keeps every item, each trimmed, in place |
| AITaskParser.ParseSubTasks | app/src/main/java/com/example/todolist/ai/AITaskParser.kt:134-141 | a non-list gives no subtasks; a list gives one new unchecked subtask per kept title, in order, each title non-blank |
| AITaskParser.SaturateLong | app/src/main/java/com/example/todolist/ai/AITaskParser.kt:157 | `Number.toLong()`: identity within `Long`, the nearer bound outside |
| AITaskParser.ScaleDueDate | app/src/main/java/com/example/todolist/ai/AITaskParser.kt:157 | below 10^12 the value is multiplied by 1000, at or above it is kept; oversized values saturate |
| AITaskParser.ScaleDueDateExamples | app/src/main/java/com/example/todolist/ai/AITaskParser.kt:157 | 1735000000 becomes 1735000000000; 1735000000000 and 0 stay |
| AITaskParser.ScaleDueDateMonotone | app/src/main/java/com/example/todolist/ai/AITaskParser.kt:157 | within either range the scaling keeps order |
| AITaskParser.DueDateText | app/src/main/java/com/example/todolist/ai/AITaskParser.kt:149-150 | the text handed to the date parser is the trimmed, unquoted string; there is none exactly when that text is blank or "null" in any case |
| AITaskParser.DueDateTextQuotedNull | app/src/main/java/com/example/todolist/ai/AITaskParser.kt:149-150 | a quoted "null" in any capitalisation gives no date |
| AITaskParser.DueDateTextQuoted | app/src/main/java/com/example/todolist/ai/AITaskParser.kt:149-150 | a date in double quotes reaches the date parser without its quotes, unless it is blank or "null" |
| AITaskParser.UnquoteWrapped | app/src/main/java/com/example/todolist/ai/AITaskParser.kt:149 | trimming and unquoting a quoted text gives the text back |
| AITaskParser.DueDateTextBlank | app/src/main/java/com/example/todolist/ai/AITaskParser.kt:149-150 | an empty quoted string or a blank string gives no date |
| AITaskParser.ParseDueDate | app/src/main/java/com/example/todolist/ai/AITaskParser.kt:146-160 | a number is scaled; a string goes through the text rule and then the date parser (failure is null); anything else is null; never an error |
| AITaskParser.TaskFromObject | app/src/main/java/com/example/todolist/ai/AITaskParser.kt:110-117 | title is the string title or "新任务", description and reasoning the strings or "", and priority, dueDate, subtasks their parsed values |
| AITaskParser.TaskFromObjectDefaults | app/src/main/java/com/example/todolist/ai/AITaskParser.kt:110-117 | with none of the six keys the task is ("新任务", "", MEDIUM, no date, "", no subtasks); a non-string title gives the default |
| AITaskParser.ParseResponse | app/src/main/java/com/example/todolist/ai/AITaskParser.kt:104-118 | fails with NoJsonObject iff the extraction fails, with EmptyJson iff it is empty; succeeds iff the extract is non-empty and decodes, and then is that object's fields; the extract starts with '{' and ends with '}' |
| AITaskParser.ParseResponseWrapped | app/src/main/java/com/example/todolist/ai/AITaskParser.kt:104-118 | an object surrounded by brace-free text decodes to that object's task |
| AITaskParser.ExtractWrapped | app/src/main/java/com/example/todolist/ai/AITaskParser.kt:105-107 | the extraction of such a reply is exactly the object text |
| AITaskParser.IndexOfConcat | app/src/main/java/com/example/todolist/ai/AITaskParser.kt:105 | the first '{' lies after a brace-free prefix |
| AITaskParser.LastIndexOfConcat | app/src/main/java/com/example/todolist/ai/AITaskParser.kt:106 | the last '}' lies before a brace-free suffix |
| AITaskParser.ParseTask | app/src/main/java/com/example/todolist/ai/AITaskParser.kt:33-42 | never throws: a failed call becomes a failure, otherwise the result of parsing the reply; a success implies a successful call and extraction |
| AITaskParser.ParsedTaskToTodo | app/src/main/java/com/example/todolist/ai/AITaskParser.kt:165-173 | a new open task with the parsed fields and no completedAt; the reasoning is dropped |
| Sorting.Ties | app/src/main/java/com/example/tasks/viewmodel/TodoViewModel.kt:279 | the elements with one key are a sub-list of the input |
| Sorting.Insert | app/src/main/java/com/example/tasks/viewmodel/TodoViewModel.kt:279 | insertion adds exactly the one element (multiset) |
| Sorting.InsertSorted | app/src/main/java/com/example/tasks/viewmodel/TodoViewModel.kt:279 | insertion keeps a sorted list sorted |
| Sorting.InsertionSort | app/src/main/java/com/example/tasks/viewmodel/TodoViewModel.kt:278-279 | the result is a sorted permutation of the input |
| Sorting.InsertTies | app/src/main/java/com/example/tasks/viewmodel/TodoViewModel.kt:279 | an inserted element goes ahead of the equal-key elements already there |
| Sorting.InsertionSortStable | app/src/main/java/com/example/tasks/viewmodel/TodoViewModel.kt:278-279 | elements with equal keys keep their input order (stability of `sortedWith`) |
| Sorting.StableSortIsUnique | app/src/main/java/com/example/tasks/viewmodel/TodoViewModel.kt:278-279 | two sorted permutations agreeing on the order within every key are equal |
| Sorting.TailOf | app/src/main/java/com/example/tasks/viewmodel/TodoViewModel.kt:279 | the tail of a sorted list is sorted and holds all but the head |
| Sorting.HeadsTie | app/src/main/java/com/example/tasks/viewmodel/TodoViewModel.kt:279 | two sorted permutations start with the same key |
| Sorting.DropTie | app/src/main/java/com/example/tasks/viewmodel/TodoViewModel.kt:279 | removing the head removes it from its own key's ties only |
| Sorting.StableSortIsInsertionSort | app/src/main/java/com/example/tasks/viewmodel/TodoViewModel.kt:278-279 | any stable sort by the comparator gives exactly InsertionSort's result |
| TodoEntities.ToPriority | app/src/main/java/com/example/tasks/database/TodoEntity.kt:41-44 | succeeds exactly on an enum name, giving the level with that name; no default |
| TodoEntities.PriorityColumnRoundTrip | app/src/main/java/com/example/tasks/database/TodoEntity.kt:36-44 | `toPriority(fromPriority(p)) == p`, and distinct levels get distinct column values |
| TodoEntities.ToPriorityExamples | app/src/main/java/com/example/tasks/database/TodoEntity.kt:41-44 | "URGENT" is URGENT; "urgent" and "" are errors |
| TodoEntities.ToSubTaskList | app/src/main/java/com/example/tasks/database/TodoEntity.kt:51-55 | the decoded list, or the empty list when the decoder yields null |
| TodoEntities.SubTaskListRoundTrip | app/src/main/java/com/example/tasks/database/TodoEntity.kt:47-55 | when the JSON library reads back what it writes, `toSubTaskList(fromSubTaskList(l)) == l` (`TodoEntities.FromSubTaskList` is the encoder) |
| TodoDatabase.CountsAddUp | app/src/main/java/com/example/todolist/database/TodoDao.kt:69-82 | total count = incomplete count + completed count |
| TodoDatabase.Upsert | app/src/main/java/com/example/todolist/database/TodoDao.kt:39-40 | REPLACE: the keys become the old keys plus the id, the row under the id is the inserted one, every other row is unchanged, the size grows only for a new id |
| TodoDatabase.UpsertNewSelects | app/src/main/java/com/example/todolist/database/TodoDao.kt:39-40 | a row under a new id joins exactly the selections it matches |
| TodoDatabase.UpsertOpenRow | app/src/main/java/com/example/todolist/database/TodoDao.kt:39-40 | an open row under a new id joins the incomplete rows; the completed rows are unchanged |
| TodoDatabase.UpdateRow | app/src/main/java/com/example/todolist/database/TodoDao.kt:45-46 | replaces the row with the same key if there is one, otherwise changes nothing |
| TodoDatabase.DeleteRow | app/src/main/java/com/example/todolist/database/TodoDao.kt:51-58 | removes only the row with that id, if any |
| TodoDatabase.DeleteCompleted | app/src/main/java/com/example/todolist/database/TodoDao.kt:63-64 | exactly the incomplete rows remain, unchanged |
| TodoDatabase.DeleteCompletedCounts | app/src/main/java/com/example/todolist/database/TodoDao.kt:63-82 | after the delete, the total is the old incomplete count and the completed count is 0 |
| TodoDatabase.RowsWhereKeyed | app/src/main/java/com/example/todolist/database/TodoDao.kt:27-34 | every selected row is stored under its own id and matches the clause |
| TodoDatabase.PickedAdd | app/src/main/java/com/example/todolist/database/TodoDao.kt:15-34 | visiting one more key adds its row exactly when it matches |
| TodoDatabase.SelectStep | app/src/main/java/com/example/todolist/database/TodoDao.kt:15-34 | visiting one more key keeps the selection invariant, appending its row when it matches |
| TodoDatabase.PickedAll | app/src/main/java/com/example/todolist/database/TodoDao.kt:15-34 | once every key is visited the picked rows are exactly the query's rows |
| TodoDatabase.TodoDao.constructor | app/src/main/java/com/example/todolist/database/TodoDao.kt:9-10 | a new table is empty |
| TodoDatabase.TodoDao.Select | app/src/main/java/com/example/todolist/database/TodoDao.kt:15-34 | each selected row exactly once, every one stored under its key and matching the clause; the loop keeps `TodoDatabase.SelectedSoFar`, the rows picked from the visited keys (`TodoDatabase.Picked`) |
| TodoDatabase.TodoDao.GetAllTodos | app/src/main/java/com/example/todolist/database/TodoDao.kt:15-16 | every row once, ordered by createdAt descending |
| TodoDatabase.TodoDao.GetTodoById | app/src/main/java/com/example/todolist/database/TodoDao.kt:21-22 | the row with that id, or null exactly when there is none |
| TodoDatabase.TodoDao.GetIncompleteTodos | app/src/main/java/com/example/todolist/database/TodoDao.kt:27-28 | exactly the incomplete rows, each once (order not specified) |
| TodoDatabase.TodoDao.GetCompletedTodos | app/src/main/java/com/example/todolist/database/TodoDao.kt:33-34 | exactly the completed rows, each once, completedAt descending |
| TodoDatabase.TodoDao.InsertTodo | app/src/main/java/com/example/todolist/database/TodoDao.kt:39-40 | the table becomes the upsert of the row |
| TodoDatabase.TodoDao.UpdateTodo | app/src/main/java/com/example/todolist/database/TodoDao.kt:45-46 | the table becomes the update of the row |
| TodoDatabase.TodoDao.DeleteTodo | app/src/main/java/com/example/todolist/database/TodoDao.kt:51-52 | deletes by the entity's primary key |
| TodoDatabase.TodoDao.DeleteTodoById | app/src/main/java/com/example/todolist/database/TodoDao.kt:57-58 | deletes the row with that id only |
| TodoDatabase.TodoDao.DeleteCompletedTodos | app/src/main/java/com/example/todolist/database/TodoDao.kt:63-64 | leaves exactly the incomplete rows |
| TodoDatabase.TodoDao.GetTodoCount | app/src/main/java/com/example/todolist/database/TodoDao.kt:69-70 | the number of rows |
| TodoDatabase.TodoDao.GetIncompleteCount | app/src/main/java/com/example/todolist/database/TodoDao.kt:75-76 | the number of incomplete rows, at most the total |
| TodoDatabase.TodoDao.GetCompletedCount | app/src/main/java/com/example/todolist/database/TodoDao.kt:81-82 | the number of completed rows, at most the total |
| Repository.ConversionsRoundTrip | app/src/main/java/com/example/todolist/repository/TodoRepository.kt:110-139 | `toTodo(toEntity(t)) == t` and `toEntity(toTodo(e)) == e` |
| Repository.ToEntityInjective | app/src/main/java/com/example/todolist/repository/TodoRepository.kt:127-139 | distinct tasks give distinct rows |
| Repository.ToTodos | app/src/main/java/com/example/todolist/repository/TodoRepository.kt:19-23 | same length, element-wise conversion in the same order |
| Repository.ToTodosCount | app/src/main/java/com/example/todolist/repository/TodoRepository.kt:19-23 | a task occurs in the converted list as often as its row in the DAO's list |
| Repository.ToTodosMultiset | app/src/main/java/com/example/todolist/repository/TodoRepository.kt:19-23 | conversion carries a permutation over |
| Repository.TodosOf | app/src/main/java/com/example/todolist/repository/TodoRepository.kt:19-23 | a task is among the converted rows exactly when its own row is among the rows |
| Repository.ToTodosOfSet | app/src/main/java/com/example/todolist/repository/TodoRepository.kt:19-23 | a list holding each row of a set once converts to a list holding each of their tasks once |
| Repository.ToTodosAppend | app/src/main/java/com/example/todolist/repository/TodoRepository.kt:19-23 | conversion distributes over concatenation |
| Repository.TodoRepository.constructor | app/src/main/java/com/example/todolist/repository/TodoRepository.kt:14 | wraps the given DAO |
| Repository.TodoRepository.GetAllTodos | app/src/main/java/com/example/todolist/repository/TodoRepository.kt:19-23 | every stored task once, converted, newest `createdAt` first |
| Repository.TodoRepository.GetTodoById | app/src/main/java/com/example/todolist/repository/TodoRepository.kt:28-30 | null exactly when the DAO finds nothing, otherwise the converted row |
| Repository.TodoRepository.GetIncompleteTodos | app/src/main/java/com/example/todolist/repository/TodoRepository.kt:35-39 | exactly the open tasks, each once, converted |
| Repository.TodoRepository.GetCompletedTodos | app/src/main/java/com/example/todolist/repository/TodoRepository.kt:44-48 | exactly the finished tasks, each once, converted; latest completion first, no completion time last |
| Repository.TodoRepository.InsertTodo | app/src/main/java/com/example/todolist/repository/TodoRepository.kt:53-55 | exactly the DAO upsert of the converted record |
| Repository.TodoRepository.UpdateTodo | app/src/main/java/com/example/todolist/repository/TodoRepository.kt:60-62 | exactly the DAO update of the converted record |
| Repository.TodoRepository.DeleteTodo | app/src/main/java/com/example/todolist/repository/TodoRepository.kt:67-69 | exactly the DAO delete of the record's key |
| Repository.TodoRepository.DeleteTodoById | app/src/main/java/com/example/todolist/repository/TodoRepository.kt:74-76 | exactly the DAO delete by id |
| Repository.TodoRepository.DeleteCompletedTodos | app/src/main/java/com/example/todolist/repository/TodoRepository.kt:81-83 | exactly the DAO delete of completed rows |
| Repository.TodoRepository.GetTodoCount | app/src/main/java/com/example/todolist/repository/TodoRepository.kt:88-90 | the DAO's total count |
| Repository.TodoRepository.GetIncompleteCount | app/src/main/java/com/example/todolist/repository/TodoRepository.kt:95-97 | the DAO's incomplete count |
| Repository.TodoRepository.GetCompletedCount | app/src/main/java/com/example/todolist/repository/TodoRepository.kt:102-104 | the DAO's completed count |
| TaskOps.WithRecord | app/src/main/java/com/example/tasks/viewmodel/TodoViewModel.kt:84 | writing a record back under its id changes only that row and keeps the store consistent |
| TaskOps.AddedTodo | app/src/main/java/com/example/tasks/viewmodel/TodoViewModel.kt:58-66 | none iff the title is blank; otherwise trimmed title and description, open, no completedAt |
| TaskOps.AddedRow | app/src/main/java/com/example/tasks/viewmodel/TodoViewModel.kt:60-69 | the inserted row is the converted new task, open with no completedAt |
| TaskOps.AddTodoIn | app/src/main/java/com/example/tasks/viewmodel/TodoViewModel.kt:58-70 | a blank title leaves the table unchanged; otherwise the keys become the old keys plus the id, the stored record converts back to exactly the AddedTodo task, other rows are kept, and store consistency (`TaskOps.StoreConsistent`: keyed by id, completedAt set exactly on completed tasks) is preserved |
| TaskOps.AddTodoAddsRow | app/src/main/java/com/example/tasks/viewmodel/TodoViewModel.kt:58-70 | under a fresh id exactly one row is added |
| TaskOps.AddTodoCounts | app/src/main/java/com/example/tasks/viewmodel/TodoViewModel.kt:58-70 | the new task joins the incomplete rows; the completed rows are unchanged |
| TaskOps.Toggled | app/src/main/java/com/example/tasks/viewmodel/TodoViewModel.kt:80-83 | flips isCompleted; completedAt is now when completed, null when reopened; nothing else changes |
| TaskOps.ToggleTwice | app/src/main/java/com/example/tasks/viewmodel/TodoViewModel.kt:76-87 | twice restores isCompleted; an open consistent task comes back exactly |
| TaskOps.ToggleTodoIn | app/src/main/java/com/example/tasks/viewmodel/TodoViewModel.kt:76-87 | the record with the id is toggled, every other row unchanged, unknown id a no-op, consistency kept |
| TaskOps.ToggleMovesSection | app/src/main/java/com/example/tasks/viewmodel/TodoViewModel.kt:76-87 | a toggle moves exactly that task between the incomplete and completed sets |
| TaskOps.EditedTodo | app/src/main/java/com/example/tasks/viewmodel/TodoViewModel.kt:214-220 | new trimmed title/description, priority, dueDate, subtasks; id, isCompleted, createdAt, completedAt kept |
| TaskOps.EditTodoIn | app/src/main/java/com/example/tasks/viewmodel/TodoViewModel.kt:209-223 | blank title or unknown id: unchanged; otherwise the record is edited, other rows kept |
| TaskOps.EditWithSameValues | app/src/main/java/com/example/tasks/viewmodel/TodoViewModel.kt:214-220 | editing with the record's own trimmed values changes nothing |
| TaskOps.ToggledSubTasks | app/src/main/java/com/example/tasks/viewmodel/TodoViewModel.kt:234-240 | same length and order; only subtasks with the matching id flip, no other field changes |
| TaskOps.ToggleSubTaskTwice | app/src/main/java/com/example/tasks/viewmodel/TodoViewModel.kt:234-240 | toggling twice restores the list; an absent id changes nothing |
| TaskOps.ToggleSubTaskCount | app/src/main/java/com/example/tasks/viewmodel/TodoViewModel.kt:234-240 | toggling a unique subtask moves the checked count by exactly one |
| TaskOps.WithoutSubTask | app/src/main/java/com/example/tasks/viewmodel/TodoViewModel.kt:268 | keeps exactly the subtasks with other ids |
| TaskOps.WithoutSubTaskAppend | app/src/main/java/com/example/tasks/viewmodel/TodoViewModel.kt:268 | the filter distributes over concatenation, so relative order is kept |
| TaskOps.WithoutSubTaskUndoesAppend | app/src/main/java/com/example/tasks/viewmodel/TodoViewModel.kt:255-268 | deleting an appended subtask with a fresh id restores the list |
| TaskOps.ToggleSubTaskIn | app/src/main/java/com/example/tasks/viewmodel/TodoViewModel.kt:230-243 | only the named record's subtasks change, as ToggledSubTasks says |
| TaskOps.AddSubTaskIn | app/src/main/java/com/example/tasks/viewmodel/TodoViewModel.kt:249-258 | blank title a no-op; otherwise one subtask with the trimmed title appended at the end, the rest unchanged |
| TaskOps.DeleteSubTaskIn | app/src/main/java/com/example/tasks/viewmodel/TodoViewModel.kt:264-271 | only the named record's subtasks are filtered |
| TaskOps.AddThenDeleteSubTask | app/src/main/java/com/example/tasks/viewmodel/TodoViewModel.kt:249-271 | adding then deleting a subtask under a fresh id restores the table |
| TaskOps.Incomplete | app/src/main/java/com/example/tasks/viewmodel/TodoViewModel.kt:278 | only open tasks |
| TaskOps.Completed | app/src/main/java/com/example/tasks/viewmodel/TodoViewModel.kt:280 | only completed tasks |
| TaskOps.FiltersPartition | app/src/main/java/com/example/tasks/viewmodel/TodoViewModel.kt:278-281 | the two filters together hold every task exactly once |
| TaskOps.FiltersAppend | app/src/main/java/com/example/tasks/viewmodel/TodoViewModel.kt:278-280 | both filters distribute over concatenation (order kept) |
| TaskOps.IncompleteCount | app/src/main/java/com/example/tasks/viewmodel/TodoViewModel.kt:157-159 | 0 iff all completed, the length iff none completed |
| TaskOps.IncompleteCountIsFilter | app/src/main/java/com/example/tasks/viewmodel/TodoViewModel.kt:157-159 | the count equals the number of open tasks |
| TaskOps.PriorityKeyOrder | app/src/main/java/com/example/tasks/viewmodel/TodoViewModel.kt:279 | the comparator as the key `TaskOps.PriorityKey`: higher priority first, then earlier dueDate, a null dueDate counted as Long.MAX_VALUE and so after any date of the same priority |
| TaskOps.SortByPriority | app/src/main/java/com/example/tasks/viewmodel/TodoViewModel.kt:277-282 | a permutation: the open tasks first, sorted by the key, then the completed tasks in their original order |
| TaskOps.SortByPriorityStable | app/src/main/java/com/example/tasks/viewmodel/TodoViewModel.kt:277-282 | open tasks tied on the key keep their input order |
| TaskOps.SortByPriorityUnique | app/src/main/java/com/example/tasks/viewmodel/TodoViewModel.kt:277-282 | any stable sorted open section followed by the completed tasks is this result |
| TaskOps.IdsOfSnoc | app/src/main/java/com/example/tasks/viewmodel/TodoViewModel.kt:329-331 | the ids of a list are those of its front plus its last |
| TaskOps.InsertAllKeys | app/src/main/java/com/example/tasks/viewmodel/TodoViewModel.kt:329-331 | inserting a list (`TaskOps.InsertAll`, the `forEach { insert }` loop) adds exactly its ids as keys |
| TaskOps.InsertAllConsistent | app/src/main/java/com/example/tasks/viewmodel/TodoViewModel.kt:329-331 | inserting consistent records keeps the store consistent |
| TaskOps.InsertAllLookup | app/src/main/java/com/example/tasks/viewmodel/TodoViewModel.kt:329-331 | a record not overwritten later is stored as it is |
| TaskOps.IdsOfFour | app/src/main/java/com/example/tasks/viewmodel/TodoViewModel.kt:291-327 | the ids of four records |
| TaskOps.FourKeys | app/src/main/java/com/example/tasks/viewmodel/TodoViewModel.kt:291-331 | four records inserted in an empty table give their four keys |
| TaskOps.FourRows | app/src/main/java/com/example/tasks/viewmodel/TodoViewModel.kt:291-331 | with distinct ids, one row per record |
| TaskOps.AlternatingSections | app/src/main/java/com/example/tasks/viewmodel/TodoViewModel.kt:291-327 | open/done alternation gives two open and two done tasks |
| TaskOps.FourRowsCount | app/src/main/java/com/example/tasks/viewmodel/TodoViewModel.kt:291-331 | four distinct ids make four rows |
| TaskOps.AlternatingRows | app/src/main/java/com/example/tasks/viewmodel/TodoViewModel.kt:291-331 | the table holds two incomplete and two completed rows |
| TasksViewModel.SampleTodos | app/src/main/java/com/example/tasks/viewmodel/TodoViewModel.kt:291-327 | four consistent, titled sample tasks with the given ids and time |
| TasksViewModel.SampleTodosSections | app/src/main/java/com/example/tasks/viewmodel/TodoViewModel.kt:291-327 | two samples are open, two done; the open ones are already in priority order |
| TasksViewModel.SampleTable | app/src/main/java/com/example/tasks/viewmodel/TodoViewModel.kt:287-334 | on an empty table the samples give four consistent rows, two open and two done |
| TasksViewModel.TodoViewModel.constructor | app/src/main/java/com/example/tasks/viewmodel/TodoViewModel.kt:20-46 | all flags false, nothing edited, empty list |
| TasksViewModel.TodoViewModel.Collect | app/src/main/java/com/example/tasks/viewmodel/TodoViewModel.kt:20-25 | the list holds every stored task once, newest first; flags unchanged |
| TasksViewModel.TodoViewModel.AddTodo | app/src/main/java/com/example/tasks/viewmodel/TodoViewModel.kt:51-71 | the table becomes AddTodoIn of the old table |
| TasksViewModel.TodoViewModel.ToggleTodoCompletion | app/src/main/java/com/example/tasks/viewmodel/TodoViewModel.kt:76-87 | the table becomes ToggleTodoIn of the old table |
| TasksViewModel.TodoViewModel.DeleteTodo | app/src/main/java/com/example/tasks/viewmodel/TodoViewModel.kt:92-96 | the row with the id is removed, nothing else |
| TasksViewModel.TodoViewModel.ShowAddDialog | app/src/main/java/com/example/tasks/viewmodel/TodoViewModel.kt:101-103 | sets only showAddDialog |
| TasksViewModel.TodoViewModel.HideAddDialog | app/src/main/java/com/example/tasks/viewmodel/TodoViewModel.kt:108-110 | clears only showAddDialog |
| TasksViewModel.TodoViewModel.ShowAIAddDialog | app/src/main/java/com/example/tasks/viewmodel/TodoViewModel.kt:115-117 | sets only showAIAddDialog |
| TasksViewModel.TodoViewModel.HideAIAddDialog | app/src/main/java/com/example/tasks/viewmodel/TodoViewModel.kt:122-124 | clears only showAIAddDialog |
| TasksViewModel.TodoViewModel.ShowAIConfigDialog | app/src/main/java/com/example/tasks/viewmodel/TodoViewModel.kt:129-131 | sets only showAIConfigDialog |
| TasksViewModel.TodoViewModel.HideAIConfigDialog | app/src/main/java/com/example/tasks/viewmodel/TodoViewModel.kt:136-138 | clears only showAIConfigDialog |
| TasksViewModel.TodoViewModel.AddTodoFromAI | app/src/main/java/com/example/tasks/viewmodel/TodoViewModel.kt:143-152 | adds the parsed task as addTodo would and always leaves showAIAddDialog false |
| TasksViewModel.TodoViewModel.GetIncompleteCount | app/src/main/java/com/example/tasks/viewmodel/TodoViewModel.kt:157-159 | the number of open tasks, the length of the sorted list's open section |
| TasksViewModel.TodoViewModel.ClearCompletedTodos | app/src/main/java/com/example/tasks/viewmodel/TodoViewModel.kt:164-168 | exactly the incomplete rows remain |
| TasksViewModel.TodoViewModel.ToggleIncompleteCollapsed | app/src/main/java/com/example/tasks/viewmodel/TodoViewModel.kt:173-175 | flips only that flag (so twice restores it) |
| TasksViewModel.TodoViewModel.ToggleCompletedCollapsed | app/src/main/java/com/example/tasks/viewmodel/TodoViewModel.kt:180-182 | flips only that flag (so twice restores it) |
| TasksViewModel.TodoViewModel.StartEditingTodo | app/src/main/java/com/example/tasks/viewmodel/TodoViewModel.kt:187-189 | sets only editingTodo |
| TasksViewModel.TodoViewModel.CancelEditingTodo | app/src/main/java/com/example/tasks/viewmodel/TodoViewModel.kt:194-196 | clears only editingTodo |
| TasksViewModel.TodoViewModel.UpdateTodo | app/src/main/java/com/example/tasks/viewmodel/TodoViewModel.kt:201-225 | blank title: nothing changes, editingTodo kept; otherwise EditTodoIn and editingTodo cleared, even for an absent id |
| TasksViewModel.TodoViewModel.WriteEdit | app/src/main/java/com/example/tasks/viewmodel/TodoViewModel.kt:211-223 | the launched edit writes EditTodoIn |
| TasksViewModel.TodoViewModel.ToggleSubTaskCompletion | app/src/main/java/com/example/tasks/viewmodel/TodoViewModel.kt:230-244 | the table becomes ToggleSubTaskIn of the old table |
| TasksViewModel.TodoViewModel.AddSubTask | app/src/main/java/com/example/tasks/viewmodel/TodoViewModel.kt:249-259 | the table becomes AddSubTaskIn of the old table |
| TasksViewModel.TodoViewModel.DeleteSubTask | app/src/main/java/com/example/tasks/viewmodel/TodoViewModel.kt:264-272 | the table becomes DeleteSubTaskIn of the old table |
| TasksViewModel.TodoViewModel.SortTodosByPriority | app/src/main/java/com/example/tasks/viewmodel/TodoViewModel.kt:277-282 | the stable priority ordering of the list, a permutation with open tasks first |
| TasksViewModel.TodoViewModel.InitializeSampleData | app/src/main/java/com/example/tasks/viewmodel/TodoViewModel.kt:287-334 | inserts the four samples in order only when the table is empty |
| TodoListViewModel.SampleTodos | app/src/main/java/com/example/todolist/viewmodel/TodoViewModel.kt:242-278 | four consistent, titled sample tasks with the given ids and time |
| TodoListViewModel.SampleTodosSections | app/src/main/java/com/example/todolist/viewmodel/TodoViewModel.kt:242-278 | two samples are open, two done; the open ones are in priority order |
| TodoListViewModel.SampleTable | app/src/main/java/com/example/todolist/viewmodel/TodoViewModel.kt:238-285 | on an empty table the samples give four consistent rows, two open and two done |
| TodoListViewModel.TodoViewModel.constructor | app/src/main/java/com/example/todolist/viewmodel/TodoViewModel.kt:20-39 | all flags false, nothing edited, empty list |
| TodoListViewModel.TodoViewModel.Collect | app/src/main/java/com/example/todolist/viewmodel/TodoViewModel.kt:20-25 | the list holds every stored task once, newest first; flags unchanged |
| TodoListViewModel.TodoViewModel.AddTodo | app/src/main/java/com/example/todolist/viewmodel/TodoViewModel.kt:44-64 | blank title rejected; otherwise the trimmed open record is inserted |
| TodoListViewModel.TodoViewModel.ToggleTodoCompletion | app/src/main/java/com/example/todolist/viewmodel/TodoViewModel.kt:69-80 | the table becomes ToggleTodoIn of the old table (completedAt set iff completed) |
| TodoListViewModel.TodoViewModel.DeleteTodo | app/src/main/java/com/example/todolist/viewmodel/TodoViewModel.kt:85-89 | the row with the id is removed, nothing else |
| TodoListViewModel.TodoViewModel.ShowAddDialog | app/src/main/java/com/example/todolist/viewmodel/TodoViewModel.kt:94-96 | sets only showAddDialog |
| TodoListViewModel.TodoViewModel.HideAddDialog | app/src/main/java/com/example/todolist/viewmodel/TodoViewModel.kt:101-103 | clears only showAddDialog |
| TodoListViewModel.TodoViewModel.GetIncompleteCount | app/src/main/java/com/example/todolist/viewmodel/TodoViewModel.kt:108-110 | the number of open tasks |
| TodoListViewModel.TodoViewModel.ClearCompletedTodos | app/src/main/java/com/example/todolist/viewmodel/TodoViewModel.kt:115-119 | exactly the incomplete rows remain |
| TodoListViewModel.TodoViewModel.ToggleIncompleteCollapsed | app/src/main/java/com/example/todolist/viewmodel/TodoViewModel.kt:124-126 | flips only that flag |
| TodoListViewModel.TodoViewModel.ToggleCompletedCollapsed | app/src/main/java/com/example/todolist/viewmodel/TodoViewModel.kt:131-133 | flips only that flag |
| TodoListViewModel.TodoViewModel.StartEditingTodo | app/src/main/java/com/example/todolist/viewmodel/TodoViewModel.kt:138-140 | sets only editingTodo |
| TodoListViewModel.TodoViewModel.CancelEditingTodo | app/src/main/java/com/example/todolist/viewmodel/TodoViewModel.kt:145-147 | clears only editingTodo |
| TodoListViewModel.TodoViewModel.UpdateTodo | app/src/main/java/com/example/todolist/viewmodel/TodoViewModel.kt:152-176 | blank title: no write, editingTodo kept; otherwise the edit and editingTodo cleared even for an absent id |
| TodoListViewModel.TodoViewModel.WriteEdit | app/src/main/java/com/example/todolist/viewmodel/TodoViewModel.kt:162-174 | the launched edit writes EditTodoIn |
| TodoListViewModel.TodoViewModel.ToggleSubTaskCompletion | app/src/main/java/com/example/todolist/viewmodel/TodoViewModel.kt:181-195 | length and order kept, only matching ids flip |
| TodoListViewModel.TodoViewModel.AddSubTask | app/src/main/java/com/example/todolist/viewmodel/TodoViewModel.kt:200-210 | appends one trimmed subtask, ignores blank titles |
| TodoListViewModel.TodoViewModel.DeleteSubTask | app/src/main/java/com/example/todolist/viewmodel/TodoViewModel.kt:215-223 | filters by id, order kept |
| TodoListViewModel.TodoViewModel.SortTodosByPriority | app/src/main/java/com/example/todolist/viewmodel/TodoViewModel.kt:228-233 | open tasks first in priority order, then completed; a permutation |
| TodoListViewModel.TodoViewModel.InitializeSampleData | app/src/main/java/com/example/todolist/viewmodel/TodoViewModel.kt:238-285 | inserts only when the table is empty |
| Preferences.ApiKeyIn | app/src/main/java/com/example/tasks/preferences/AIPreferences.kt:37-39 | the stored key, null exactly when none is stored |
| Preferences.AIEnabledIn | app/src/main/java/com/example/tasks/preferences/AIPreferences.kt:44-46 | true iff the flag is true and a non-blank key is stored |
| Preferences.SaveApiKeyIn | app/src/main/java/com/example/tasks/preferences/AIPreferences.kt:27-32 | stores the key and the flag `isNotBlank`; other entries kept |
| Preferences.ClearApiKeyIn | app/src/main/java/com/example/tasks/preferences/AIPreferences.kt:51-56 | removes the key and sets the flag false; other entries kept |
| Preferences.EditsKeepTypes | app/src/main/java/com/example/tasks/preferences/AIPreferences.kt:27-56 | both edits keep the two keys well typed |
| Preferences.SaveThenRead | app/src/main/java/com/example/tasks/preferences/AIPreferences.kt:27-46 | after a save the key reads back and AI is on iff the key is not blank |
| Preferences.ClearThenRead | app/src/main/java/com/example/tasks/preferences/AIPreferences.kt:37-56 | after a clear there is no key and AI is off |
| Preferences.LastEditWins | app/src/main/java/com/example/tasks/preferences/AIPreferences.kt:27-56 | the last save or clear decides the state; clearing is idempotent |
| Preferences.FreshStore | app/src/main/java/com/example/tasks/preferences/AIPreferences.kt:37-46 | an untouched store has no key and AI off |
| Preferences.BlankKeyDisables | app/src/main/java/com/example/tasks/preferences/AIPreferences.kt:27-46 | saving a blank key leaves AI off, as a clear does |
| Preferences.AIPreferences.constructor | app/src/main/java/com/example/tasks/preferences/AIPreferences.kt:12-17 | opens the store with its contents |
| Preferences.AIPreferences.SaveApiKey | app/src/main/java/com/example/tasks/preferences/AIPreferences.kt:27-32 | the store becomes SaveApiKeyIn of the old store |
| Preferences.AIPreferences.GetApiKey | app/src/main/java/com/example/tasks/preferences/AIPreferences.kt:37-39 | the stored key, null exactly when absent |
| Preferences.AIPreferences.IsAIEnabled | app/src/main/java/com/example/tasks/preferences/AIPreferences.kt:44-46 | AIEnabledIn of the store; true only with a non-blank key |
| Preferences.AIPreferences.ClearApiKey | app/src/main/java/com/example/tasks/preferences/AIPreferences.kt:51-56 | the store becomes ClearApiKeyIn of the old store |

## Left out

- The HTTP call to the chat-completion endpoint, its request body and the extraction of `choices[0].message.content` (`callDeepSeekAPI`): network I/O; it is the `reply` parameter of `ParseTask`, whose failure stands for any exception it throws.
- `createPrompt`: it only formats the wall clock and the user's text into the prompt.
- Gson (`fromJson`, `toJson`) and `SimpleDateFormat.parse`: foreign libraries, given as the parameters `decode`, `encode` and `parseDate`; no calendar arithmetic is modelled.
- The richer chain of fallback date patterns of the other parser variant: only the single-pattern parser is modelled.
- Coroutines and flows: each launched block runs atomically inside its call; interleavings and the lost updates they allow are not modelled. A `Flow` read is one emission.
- Floating point: `subTaskProgress` is a numerator/denominator pair; Gson's `Double` numbers are given already rounded toward zero.
- `System.currentTimeMillis()` is read several times in `initializeSampleData`, twice in `isDueSoon` (`Todos.IsDueSoon`) and once per parsed subtask for its default `createdAt` (`AITaskParser.ParseSubTasks`); the model uses one `now` parameter for all reads of one operation.
- TodoDatabase.TodoDao.GetIncompleteTodos: states which rows come back, not their order; the SQL orders by the priority's enum name (lexicographic) with NULL due dates first, which is not the client-side ordinal order.
- TodoDatabase.TodoDao.GetAllTodos: rows created at the same instant come in no promised order, as in SQL.
- The Compose UI (screens, components, dialogs, voice input), both activities and both view-model factories: rendering and platform plumbing.
- The `todolist/data/Todo.kt` record: a stale six-field record not used by the modelled code.
- `Char.uppercase` is modelled only for characters whose upper case is an ASCII letter; other mappings cannot make a string equal to a priority name.
- KotlinText.EqualsIgnoreCase: compares upper cases only; the JVM also compares lower cases, which can change the answer only against a literal holding a letter such as 'k' (the Kelvin sign), and the literals it is applied to ("null" and the four priority names) hold no such letter.
