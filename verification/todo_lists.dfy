/** The `TodoList` manager: an ordered sequence of tasks plus the counter that hands out
    ids, its operations as pure transitions, and the counter computation of a reload. */
module TodoLists {
  import opened Wrappers
  import opened Strings
  import opened Tasks

  /** The two ways an operation can fail. The program raises `ValueError` for both; the
      model keeps them apart so that contracts can say which one occurs. */
  datatype Error =
    | EmptyTitle               // the title is empty once whitespace is stripped
    | TaskNotFound(id: int)    // no task carries this id; the message names the id

  /** The list's state: tasks in insertion order and the next id to hand out. Ids are
      plain integers because a reloaded store may hold any integer id. */
  datatype State = State(tasks: seq<Task>, nextId: int)

  /** The ids of `tasks`, in order. */
  function Ids(tasks: seq<Task>): (ids: seq<int>)
    ensures |ids| == |tasks|
    ensures forall i :: 0 <= i < |tasks| ==> ids[i] == tasks[i].id
  {
    seq(|tasks|, i requires 0 <= i < |tasks| => tasks[i].id)
  }

  /** Every id is smaller than the counter, so the next id handed out is fresh. */
  ghost predicate IdsBelowCounter(s: State) {
    forall i :: 0 <= i < |s.tasks| ==> s.tasks[i].id < s.nextId
  }

  /** Ids strictly increase along the sequence (so they are also pairwise distinct). */
  ghost predicate StrictlyIncreasing(tasks: seq<Task>) {
    forall i, j :: 0 <= i < j < |tasks| ==> tasks[i].id < tasks[j].id
  }

  /** The invariant every list built by this program keeps. */
  ghost predicate Valid(s: State) {
    StrictlyIncreasing(s.tasks) && IdsBelowCounter(s)
  }

  /** `tasks'` is `tasks` with at most the task at position `k` replaced. */
  ghost predicate OthersUnchanged(tasks: seq<Task>, tasks': seq<Task>, k: nat) {
    |tasks'| == |tasks| && forall j :: 0 <= j < |tasks| && j != k ==> tasks'[j] == tasks[j]
  }

  /** A list built without a store: no tasks, counter at 1. */
  function Empty(): (s: State)
    ensures s.tasks == [] && s.nextId == 1
    ensures Valid(s)
  {
    State([], 1)
  }

  /** The scan of `_find_task_by_id` from position `i` on: the position of the first task
      at or after `i` that carries `id`, or `None`. */
  function FindFrom(tasks: seq<Task>, id: int, i: nat): (r: Option<nat>)
    requires i <= |tasks|
    ensures r.None? <==> forall k :: i <= k < |tasks| ==> tasks[k].id != id
    ensures r.Some? ==> i <= r.value < |tasks| && tasks[r.value].id == id
    ensures r.Some? ==> forall k :: i <= k < r.value ==> tasks[k].id != id
    decreases |tasks| - i
  {
    if i == |tasks| then None
    else if tasks[i].id == id then Some(i)
    else FindFrom(tasks, id, i + 1)
  }

  /** `_find_task_by_id`: the position of the FIRST task carrying `id`, or `None`. */
  function FindIndex(tasks: seq<Task>, id: int): (r: Option<nat>)
    ensures r.None? <==> id !in Ids(tasks)
    ensures r.Some? ==> r.value < |tasks| && tasks[r.value].id == id
    ensures r.Some? ==> forall j :: 0 <= j < r.value ==> tasks[j].id != id
  {
    FindFrom(tasks, id, 0)
  }

  /** `add_task`: a title that strips to nothing fails with `EmptyTitle`; otherwise a
      pending task carrying the stripped title and the current counter value is appended
      and the counter moves on by one. */
  function AddTask(s: State, title: string, now: Timestamp): (r: Result<(State, Task), Error>)
    ensures r.Failure? <==> AllSpace(title)
    ensures r.Failure? ==> r.error == EmptyTitle
    ensures r.Success? ==>
      var (s', t) := r.value;
      && t.id == s.nextId && t.title == Strip(title) && t.title != []
      && t.status == Pending && t.createdAt == now && t.completedAt == None
      && s'.tasks == s.tasks + [t] && s'.nextId == s.nextId + 1
  {
    var stripped := Strip(title);
    if stripped == [] then Failure(EmptyTitle)
    else
      var t := NewTask(s.nextId, stripped, now);
      Success((State(s.tasks + [t], s.nextId + 1), t))
  }

  /** `list_tasks`: the tasks in insertion order. */
  function ListTasks(s: State): (tasks: seq<Task>)
    ensures |tasks| == |s.tasks|
    ensures forall i :: 0 <= i < |tasks| ==> tasks[i] == s.tasks[i]
  {
    s.tasks
  }

  /** `__len__`: the number of tasks. */
  function Len(s: State): (n: nat)
    ensures n == |ListTasks(s)|
  {
    |s.tasks|
  }

  /** `mark_completed`: an unknown id fails with `TaskNotFound`. Otherwise the first task
      with that id is completed at `now` and returned; no other task, no position and not
      the counter changes. */
  function MarkCompleted(s: State, id: int, now: Timestamp): (r: Result<(State, Task), Error>)
    ensures r.Failure? <==> id !in Ids(s.tasks)
    ensures r.Failure? ==> r.error == TaskNotFound(id)
    ensures r.Success? ==>
      var (s', t) := r.value;
      var k := FindIndex(s.tasks, id).value;
      && s'.nextId == s.nextId
      && OthersUnchanged(s.tasks, s'.tasks, k)
      && s'.tasks[k] == t
      && t.id == id && t.title == s.tasks[k].title && t.createdAt == s.tasks[k].createdAt
      && t.status == Completed && t.completedAt == Some(now)
  {
    match FindIndex(s.tasks, id)
    case None => Failure(TaskNotFound(id))
    case Some(k) =>
      var t := MarkTaskCompleted(s.tasks[k], now);
      Success((State(s.tasks[k := t], s.nextId), t))
  }

  /** `update_task`: the title is checked BEFORE the id is looked up, so an all-whitespace
      title fails with `EmptyTitle` even for an unknown id. Otherwise an unknown id fails
      with `TaskNotFound`, and a known one has its first task retitled with the stripped
      title; everything else, including that task's id, status and timestamps, stays. */
  function UpdateTask(s: State, id: int, title: string): (r: Result<(State, Task), Error>)
    ensures AllSpace(title) ==> r == Failure(EmptyTitle)
    ensures !AllSpace(title) && id !in Ids(s.tasks) ==> r == Failure(TaskNotFound(id))
    ensures r.Success? <==> !AllSpace(title) && id in Ids(s.tasks)
    ensures r.Success? ==>
      var (s', t) := r.value;
      var k := FindIndex(s.tasks, id).value;
      && s'.nextId == s.nextId
      && OthersUnchanged(s.tasks, s'.tasks, k)
      && s'.tasks[k] == t
      && t.title == Strip(title) && t.title != []
      && t.id == id && t.status == s.tasks[k].status
      && t.createdAt == s.tasks[k].createdAt && t.completedAt == s.tasks[k].completedAt
  {
    var stripped := Strip(title);
    if stripped == [] then Failure(EmptyTitle)
    else
      match FindIndex(s.tasks, id)
      case None => Failure(TaskNotFound(id))
      case Some(k) =>
        var t := s.tasks[k].(title := stripped);
        Success((State(s.tasks[k := t], s.nextId), t))
  }

  /** `clear`: no tasks remain, and the counter is NOT reset. */
  function Clear(s: State): (s': State)
    ensures s'.tasks == [] && s'.nextId == s.nextId
  {
    State([], s.nextId)
  }

  /** The largest id among `tasks` (Python's `max` over the ids). */
  function MaxId(tasks: seq<Task>): (m: int)
    requires tasks != []
    ensures forall i :: 0 <= i < |tasks| ==> tasks[i].id <= m
    ensures m in Ids(tasks)
  {
    if |tasks| == 1 then
      tasks[0].id
    else
      var rest := MaxId(tasks[1..]);
      assert Ids(tasks) == [tasks[0].id] + Ids(tasks[1..]);
      if tasks[0].id >= rest then tasks[0].id else rest
  }

  /** The counter `_load` computes, `(max(ids, default=0) or 0) + 1`: one more than the
      largest id, or 1 when there are no tasks. (`or 0` only replaces a maximum of 0 by 0.) */
  function LoadCounter(tasks: seq<Task>): (n: int)
    ensures tasks == [] ==> n == 1
    ensures forall i :: 0 <= i < |tasks| ==> tasks[i].id < n
    ensures tasks != [] ==> n - 1 in Ids(tasks)
  {
    if tasks == [] then 1 else MaxId(tasks) + 1
  }

  /** `_save`'s payload: one record per task, in order. */
  function Save(s: State): (records: seq<TaskRecord>)
    ensures |records| == |s.tasks|
    ensures forall i :: 0 <= i < |s.tasks| ==> records[i] == ToRecord(s.tasks[i])
  {
    seq(|s.tasks|, i requires 0 <= i < |s.tasks| => ToRecord(s.tasks[i]))
  }

  /** `_load` once the store's records are read: the tasks in stored order and the counter
      recomputed from their ids, so every loaded id lies below the counter. */
  function Load(records: seq<TaskRecord>): (s: State)
    ensures |s.tasks| == |records|
    ensures forall i :: 0 <= i < |records| ==> s.tasks[i] == FromRecord(records[i])
    ensures s.nextId == LoadCounter(s.tasks)
    ensures IdsBelowCounter(s)
  {
    var tasks := seq(|records|, i requires 0 <= i < |records| => FromRecord(records[i]));
    State(tasks, LoadCounter(tasks))
  }

  /** The constructor: without a store, or with a store that does not exist yet, the list
      starts empty; otherwise it is loaded from the stored records. */
  function Open(store: Option<seq<TaskRecord>>): (s: State)
    ensures store.None? ==> s == Empty()
    ensures store.Some? ==> s == Load(store.value)
    ensures IdsBelowCounter(s)
  {
    match store
    case None => Empty()
    case Some(records) => Load(records)
  }
}
