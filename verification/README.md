# To-do list core, modelled in Dafny

This project models the state container of a single-user to-do list manager
(`Project/todo_list.py`). A `Task` has an id, a title, a status string, a creation time
and an optional completion time. A `TodoList` holds an ordered sequence of tasks and a
counter, `_next_id`, that hands out ids. The list supports `add_task`, `list_tasks`,
`mark_completed`, `update_task`, `clear` and `__len__`. When it is built over a store,
it reloads the stored task records and recomputes the counter. `_format_task` renders a
task as one line of text.

The model has no mutation. The list is a value `State(tasks, nextId)`. Every operation
is a pure function. An operation that can fail returns
`Result<(State, Task), Error>`, and the caller keeps the old state when it fails.
The clock is a parameter (`now: Timestamp`) and timestamps are opaque values.

Modules:
- `Wrappers`: `Option` and `Result`.
- `Strings`: Python's `str.strip()` (`Strip`, with the exact `str.isspace()` character
  set) and a first-occurrence search.
- `Numerals`: Python's `str(int)` and its inverse.
- `Tasks`: the `Task` record, `mark_completed`, `to_dict` / `from_dict`.
- `TodoLists`: the list state, its operations, and the counter computation of `_load`.
- `TodoListLemmas`: the invariants each operation keeps, the save/reload round trip,
  and the behaviour-test scenarios.
- `Rendering`: `_format_task`, plus a line reader that serves as its inverse.
- `Traces`: runs of calls on one list object. It proves that the ids handed out are
  consecutive, even across `clear`.

Decisions worth knowing:
- Both errors are `ValueError` in the source, at `Project/todo_list.py:74`, `:96` and
  `:106`. The model splits them into `EmptyTitle` and `TaskNotFound(id)` so that
  contracts can say which one occurs. The source has one exception type for both.
- Completing a task a second time stamps `completed_at` again, as the source does. The
  model keeps this behaviour and `Tasks.CompletingAgainRestamps` states it. It is not
  made idempotent.
- `_find_task_by_id` returns the first task with the id. A reloaded store may hold
  duplicate ids, so `mark_completed` and `update_task` change only the first match.
- Ids and the counter are `int`, not `nat`. `_load` accepts whatever integer ids the
  store holds, and then `max(ids) + 1` can be zero or negative. There are two
  invariants. `IdsBelowCounter` says every id is below the counter: every load
  establishes it and every operation keeps it. `Valid` adds that ids strictly increase:
  the empty list and a reload of a saved valid list establish it, and every operation
  keeps it.
- The status is a free string, not a two-valued enumeration. `from_dict` accepts whatever
  text the store holds, and `_format_task` marks only the exact string "completed".
- "Ids are never reused" holds only within one list object. After `clear` and a reload
  the counter falls back to 1 (`TodoListLemmas.IdReusedAcrossReload`).

## Model

| member | source | states |
|---|---|---|
| `Tasks.NewTask` | Project/todo_list.py:12-20 | a new task carries the given id and title, status "pending", creation time `now` and no completion time |
| `Tasks.MarkTaskCompleted` | Project/todo_list.py:22-24 | the status becomes "completed" and the completion time becomes `now`; id, title and creation time are kept |
| `Tasks.CompletingAgainRestamps` | Project/todo_list.py:22-24 | completing twice keeps only the second stamp, and completing again at another time changes the task (not idempotent) |
| `Tasks.ToRecord` | Project/todo_list.py:26-33 | the record holds the task's id, title, status and creation time; its completion time is absent exactly when the task's is |
| `Tasks.FromRecord` | Project/todo_list.py:35-45 | the task takes the record's fields; a missing status reads as "pending" |
| `Tasks.RecordRoundTrip` | Project/todo_list.py:26-45 | reading back a written task gives the same task |
| `Tasks.RecordReadWrite` | Project/todo_list.py:35-45 | for records in the normalised form `from_dict` reads (missing and null `completed_at` alike, no extra keys, timestamps as instants), writing back a read record gives the same record exactly when the record had a status |
| `TodoLists.ListTasks` | Project/todo_list.py:81-82 | the listed tasks are the list's tasks, position by position, in insertion order; `TodoListLemmas.ViewsAfterTransitions` relates them across transitions |
| `TodoLists.Len` | Project/todo_list.py:108-109 | the length is the number of listed tasks; `TodoListLemmas.ViewsAfterTransitions` relates it across transitions |
| `Numerals.IntToString` | Project/todo_list.py:117 | the id's text is non-empty decimal digits, preceded by a minus sign exactly when the id is negative, with no leading zero after the sign; `Numerals.IntRoundTrip` reads it back as the id |
| `Strings.Strip` | Project/todo_list.py:73 | the stripped title is the slice of the title that starts at its first non-whitespace character, has only whitespace after it and none at its ends; it is empty exactly when the title is all whitespace |
| `Strings.StripPadded` | Project/todo_list.py:75 | whitespace around a trimmed core strips to exactly that core |
| `Strings.StripIdempotent` | Project/todo_list.py:98 | stripping an already stripped title changes nothing |
| `TodoLists.Empty` | Project/todo_list.py:51-56 | a list without a store starts with no tasks and counter 1, and satisfies the invariant |
| `TodoLists.FindIndex` | Project/todo_list.py:102-106 | finds nothing exactly when no task has the id; otherwise the position of the first task with that id |
| `TodoLists.AddTask` | Project/todo_list.py:72-79 | fails with EmptyTitle exactly when the title is all whitespace; otherwise appends a pending task with the stripped title and id equal to the old counter, and the counter grows by one |
| `TodoLists.MarkCompleted` | Project/todo_list.py:84-88 | fails with TaskNotFound exactly when no task has the id; otherwise only the first matching task changes (completed, stamped `now`), and it is returned |
| `TodoLists.UpdateTask` | Project/todo_list.py:94-100 | an all-whitespace title fails with EmptyTitle even for an unknown id; an unknown id then fails with TaskNotFound; otherwise only the first matching task's title changes, to the stripped title |
| `TodoLists.Clear` | Project/todo_list.py:90-92 | no tasks remain and the counter is unchanged |
| `TodoLists.MaxId` | Project/todo_list.py:64 | the result bounds every id and is one of them |
| `TodoLists.LoadCounter` | Project/todo_list.py:64 | 1 for no tasks; otherwise above every id and equal to one of them plus one |
| `TodoLists.Save` | Project/todo_list.py:69 | one record per task, in order |
| `TodoLists.Load` | Project/todo_list.py:58-64 | one task per record in stored order; counter from their ids; every loaded id lies below the counter |
| `TodoLists.Open` | Project/todo_list.py:51-60 | no store (or none yet) gives the empty list, a store gives its load; either way ids lie below the counter |
| `TodoListLemmas.ValidIdsDistinct` | Project/todo_list.py:75-77 | in a valid list no two tasks share an id |
| `TodoListLemmas.AddTaskKeepsInvariant` | Project/todo_list.py:75-77 | a successful add keeps both invariants |
| `TodoListLemmas.MarkCompletedKeepsInvariant` | Project/todo_list.py:84-88 | a successful completion keeps the ids and both invariants |
| `TodoListLemmas.UpdateTaskKeepsInvariant` | Project/todo_list.py:94-100 | a successful update keeps the ids and both invariants |
| `TodoListLemmas.ClearKeepsInvariant` | Project/todo_list.py:90-92 | the cleared list is valid |
| `TodoListLemmas.ViewsAfterTransitions` | Project/todo_list.py:81-82 | after an add the list is the old list plus the new task at the end and the length grows by one; completion and update keep the length; a cleared list is empty (`__len__` at lines 108-109) |
| `TodoListLemmas.AddAfterClearIsFresh` | Project/todo_list.py:90-92 | after a clear, the next add gets an id above every id held before the clear |
| `TodoListLemmas.MaxIdIsLast` | Project/todo_list.py:64 | with increasing ids the maximum is the last task's id |
| `TodoListLemmas.ReloadCounterAfterLast` | Project/todo_list.py:64 | for a valid nonempty list the counter a reload computes is one past the last id and not above the counter before the save |
| `TodoListLemmas.SaveLoadRoundTrip` | Project/todo_list.py:58-70 | saving then loading gives the same tasks in order; a valid list reloads valid, with counter one past its last id and not above the old counter |
| `TodoListLemmas.ReloadAfterClearResetsCounter` | Project/todo_list.py:64 | a store written after a clear reloads as the empty list with counter 1 |
| `TodoListLemmas.IdReusedAcrossReload` | Project/todo_list.py:64 | id 1 is handed out, cleared, saved, reloaded, and handed out again |
| `TodoListLemmas.ScenarioAddThenList` | Project/features/steps/todo_list_steps.py:28-38 | adding "Buy milk" to an empty list lists one pending task "Buy milk" with id 1 |
| `TodoListLemmas.ScenarioComplete` | Project/todo_list.py:84-88 | completing task 1 gives status "completed" and a completion time |
| `TodoListLemmas.ScenarioClearThenAdd` | Project/todo_list.py:90-92 | after clearing tasks 1 and 2 the list is empty and the next add gets id 3 |
| `Numerals.NatToDecimal` | Project/todo_list.py:117 | the decimal text of a non-negative id is non-empty digits with no leading zero |
| `Numerals.IntRoundTrip` | Project/todo_list.py:117 | the decimal text of an id reads back as the id |
| `Rendering.FormatTask` | Project/todo_list.py:115-117 | the line is "[m] ", then the id exactly as `str(task.id)` writes it, then ": " and the title, with m = 'x' exactly when the status is "completed" and a blank otherwise |
| `Rendering.FormatThenParse` | Project/todo_list.py:115-117 | a rendered line reads back as the completion mark, the id and the title |
| `Traces.Step` | Project/todo_list.py:72-106 | a call that raises `ValueError` leaves the list unchanged; only a successful add moves the counter, by one; both invariants are kept |
| `Traces.IssuedIdsAreConsecutive` | Project/todo_list.py:75-76 | over any run, clears included, the ids handed out are the counter's start value, then one more, and so on; the counter ends just past the last |
| `Traces.RunKeepsInvariant` | Project/todo_list.py:72-100 | every run keeps both invariants |
| `Traces.FreshListIssuesOneTwoThree` | Project/todo_list.py:51-56 | from a list without a store, the k-th successful add gets id k + 1, so ids strictly increase with no gaps |
| `Traces.NextAddIsFreshAfterRun` | Project/todo_list.py:75-76 | after any run, the next add gets an id above every id present before the run |

## Left out

- The command-line front end `main` (`Project/todo_list.py:120-178`): argument parsing, printing and exit codes are presentation only.
- File I/O in `_save` and `_load`: the path existence check, reading and writing the file, and JSON text encoding. The model keeps the record sequence that is written and the counter computed from what is read. `Open` takes the store's contents as a parameter; `None` stands for "no store configured" and for "file does not exist".
- The write after every mutation. In the model a successful transition's store contents are `Save` of the new state. A call that raises `ValueError` writes nothing, because it raises before any change and before `_save`.
- A failing write: `_save` runs after the in-memory change (lines 76-78, 86-87, 91-92, 98-99), so a write that raises an `OSError` leaves the change, and for `add_task` the moved counter, in place. The model has no failing writes and does not represent this.
- `datetime.utcnow()` and ISO-8601 formatting and parsing. The clock is the parameter `now`. `Timestamp` is opaque, and its text form is taken to read back as the same instant.
- `from_dict` on malformed records: a missing `id`, `title` or `created_at` key, an id that `int()` rejects, or a timestamp that does not parse. Records are typed, so these failures cannot be expressed.
- `from_dict` treats a falsy `completed_at` (an empty string) as absent. `isoformat` never writes an empty string, so the model's `completedAt: Option<Timestamp>` has no such case.
- `__iter__` (`Project/todo_list.py:111-112`) walks the same sequence that `ListTasks` returns. Aliasing between returned `Task` objects and the list's own tasks cannot arise in a value model.
- The text of the two `ValueError` messages is not modelled; `Error` records only which failure occurred and, for a lookup, the id.
- `Numerals.ParseInt` reads an optional minus sign followed by decimal digits, leading zeros included, not everything Python's `int()` accepts; it serves only as the inverse of `Numerals.IntToString`.
- Tasks.RecordReadWrite: compares records after `from_dict`'s normalisation. A stored dict without a `completed_at` key comes back from `to_dict` with an explicit null, extra keys are dropped, and timestamp text not in `isoformat`'s form comes back in that form; the model's `TaskRecord` cannot tell these apart, so its equality is weaker than equality of the stored dicts.
