/** The `Task` record of the to-do list: its fields, `mark_completed`, and the conversion
    to and from the plain record that is stored (`to_dict` / `from_dict`). */
module Tasks {
  import opened Wrappers

  /** A point in time as the clock reports it. The core only stores and copies
      timestamps; nothing in the model reads `ticks`. The ISO-8601 text form written to
      the store is taken to read back as the same instant. */
  datatype Timestamp = Timestamp(ticks: int)

  /** The two status strings the program writes. */
  const Pending: string := "pending"
  const Completed: string := "completed"

  /** One to-do item. `status` is a free string because a stored record may carry any
      text there; the program itself only ever writes `Pending` or `Completed`. */
  datatype Task = Task(id: int, title: string, status: string, createdAt: Timestamp, completedAt: Option<Timestamp>)

  /** `Task.mark_completed`: the status becomes "completed" and the completion time is
      stamped with `now`, whatever it held before; the other fields keep their values. */
  function MarkTaskCompleted(t: Task, now: Timestamp): (t': Task)
    ensures t'.status == Completed && t'.completedAt == Some(now)
    ensures t'.id == t.id && t'.title == t.title && t'.createdAt == t.createdAt
  {
    t.(status := Completed, completedAt := Some(now))
  }

  /** `Task(id=id, title=title)`: the defaults give a pending task created at `now` and not
      yet completed. */
  function NewTask(id: int, title: string, now: Timestamp): (t: Task)
    ensures t.id == id && t.title == title && t.createdAt == now
    ensures t.status == Pending && t.completedAt == None
  {
    Task(id, title, Pending, now, None)
  }

  /** Completing a task twice keeps only the second stamp: the operation is not
      idempotent, and completing again at a different time changes the task. */
  lemma CompletingAgainRestamps(t: Task, first: Timestamp, second: Timestamp)
    ensures MarkTaskCompleted(MarkTaskCompleted(t, first), second) == MarkTaskCompleted(t, second)
    ensures first != second ==> MarkTaskCompleted(MarkTaskCompleted(t, first), second) != MarkTaskCompleted(t, first)
  {
  }

  /** The plain record a task is stored as, in the normalised form `from_dict` reads it:
      `status` is `None` when the key is missing, `completedAt` is `None` whether the key
      is missing or holds null, other keys are not represented, and timestamps are
      instants rather than their text. */
  datatype TaskRecord = TaskRecord(id: int, title: string, status: Option<string>, createdAt: Timestamp, completedAt: Option<Timestamp>)

  /** `Task.to_dict`. */
  function ToRecord(t: Task): (r: TaskRecord)
    ensures r.id == t.id && r.title == t.title && r.createdAt == t.createdAt
    ensures r.status == Some(t.status)
    ensures r.completedAt.None? <==> t.completedAt.None?
  {
    TaskRecord(t.id, t.title, Some(t.status), t.createdAt, t.completedAt)
  }

  /** `Task.from_dict`: a missing status reads as "pending". */
  function FromRecord(r: TaskRecord): (t: Task)
    ensures t.id == r.id && t.title == r.title && t.createdAt == r.createdAt
    ensures t.status == (if r.status.Some? then r.status.value else Pending)
    ensures t.completedAt == r.completedAt
  {
    Task(r.id, r.title, if r.status.Some? then r.status.value else Pending, r.createdAt, r.completedAt)
  }

  /** Reading back a written task gives the same task. */
  lemma RecordRoundTrip(t: Task)
    ensures FromRecord(ToRecord(t)) == t
  {
  }

  /** Writing back a read record gives the same record exactly when the record had a status:
      a missing status comes back as an explicit "pending". */
  lemma RecordReadWrite(r: TaskRecord)
    ensures ToRecord(FromRecord(r)) == r <==> r.status.Some?
    ensures r.status.None? ==> ToRecord(FromRecord(r)).status == Some(Pending)
  {
  }
}
