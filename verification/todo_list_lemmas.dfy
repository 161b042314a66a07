/** Properties of the `TodoList` transitions: the id invariant each one keeps, what the
    read-only views report, the counter after `clear` and after a reload, and the
    scenarios the behaviour tests walk through. */
module TodoListLemmas {
  import opened Wrappers
  import opened Strings
  import opened Tasks
  import opened TodoLists

  /** Valid ids are pairwise distinct, so a lookup by id is unambiguous. */
  lemma ValidIdsDistinct(s: State, i: nat, j: nat)
    requires Valid(s)
    requires i < |s.tasks| && j < |s.tasks| && i != j
    ensures s.tasks[i].id != s.tasks[j].id
  {
  }

  /** A successful `add_task` keeps both invariants. */
  lemma AddTaskKeepsInvariant(s: State, title: string, now: Timestamp)
    requires AddTask(s, title, now).Success?
    ensures IdsBelowCounter(s) ==> IdsBelowCounter(AddTask(s, title, now).value.0)
    ensures Valid(s) ==> Valid(AddTask(s, title, now).value.0)
  {
  }

  /** A successful `mark_completed` keeps both invariants: ids and counter are untouched. */
  lemma MarkCompletedKeepsInvariant(s: State, id: int, now: Timestamp)
    requires MarkCompleted(s, id, now).Success?
    ensures Ids(MarkCompleted(s, id, now).value.0.tasks) == Ids(s.tasks)
    ensures IdsBelowCounter(s) ==> IdsBelowCounter(MarkCompleted(s, id, now).value.0)
    ensures Valid(s) ==> Valid(MarkCompleted(s, id, now).value.0)
  {
  }

  /** A successful `update_task` keeps both invariants: ids and counter are untouched. */
  lemma UpdateTaskKeepsInvariant(s: State, id: int, title: string)
    requires UpdateTask(s, id, title).Success?
    ensures Ids(UpdateTask(s, id, title).value.0.tasks) == Ids(s.tasks)
    ensures IdsBelowCounter(s) ==> IdsBelowCounter(UpdateTask(s, id, title).value.0)
    ensures Valid(s) ==> Valid(UpdateTask(s, id, title).value.0)
  {
  }

  /** `clear` keeps the invariant (an empty list satisfies it whatever the counter). */
  lemma ClearKeepsInvariant(s: State)
    ensures Valid(Clear(s))
  {
  }

  /** The views after each transition: `add_task` appends at the end and grows the length
      by one, `mark_completed` and `update_task` keep the length, `clear` leaves none. */
  lemma ViewsAfterTransitions(s: State, id: int, title: string, now: Timestamp)
    ensures AddTask(s, title, now).Success? ==>
      && ListTasks(AddTask(s, title, now).value.0) == ListTasks(s) + [AddTask(s, title, now).value.1]
      && Len(AddTask(s, title, now).value.0) == Len(s) + 1
    ensures MarkCompleted(s, id, now).Success? ==> Len(MarkCompleted(s, id, now).value.0) == Len(s)
    ensures UpdateTask(s, id, title).Success? ==> Len(UpdateTask(s, id, title).value.0) == Len(s)
    ensures ListTasks(Clear(s)) == [] && Len(Clear(s)) == 0
  {
  }

  /** After `clear`, the next `add_task` receives an id larger than every id the list
      held before the clear: the counter is not reset. */
  lemma AddAfterClearIsFresh(s: State, title: string, now: Timestamp)
    requires IdsBelowCounter(s)
    requires !AllSpace(title)
    ensures AddTask(Clear(s), title, now).Success?
    ensures forall i :: 0 <= i < |s.tasks| ==> s.tasks[i].id < AddTask(Clear(s), title, now).value.1.id
  {
  }

  /** In a list with increasing ids the largest id is the last one. */
  lemma {:induction false} MaxIdIsLast(tasks: seq<Task>)
    requires tasks != [] && StrictlyIncreasing(tasks)
    ensures MaxId(tasks) == tasks[|tasks| - 1].id
  {
    var m, last := MaxId(tasks), |tasks| - 1;
    var i :| 0 <= i < |tasks| && Ids(tasks)[i] == m;
    assert tasks[i].id <= tasks[last].id <= m;
  }

  /** Loading what was saved gives back the same tasks in the same order. */
  lemma LoadSavedTasks(s: State)
    ensures Load(Save(s)).tasks == s.tasks
  {
    var t := Load(Save(s)).tasks;
    forall i | 0 <= i < |s.tasks| ensures t[i] == s.tasks[i] {
      RecordRoundTrip(s.tasks[i]);
    }
  }

  /** For a valid nonempty list, the counter a reload computes is one more than the last
      id, and so never exceeds the counter before the save. */
  lemma ReloadCounterAfterLast(s: State)
    requires Valid(s) && s.tasks != []
    ensures LoadCounter(s.tasks) == s.tasks[|s.tasks| - 1].id + 1 <= s.nextId
  {
    MaxIdIsLast(s.tasks);
  }

  /** Saving then loading gives back the same tasks in the same order. The counter becomes
      one more than the largest id, which for a valid list is the last one, and so never
      exceeds the counter before the save; a valid list reloads valid. */
  lemma SaveLoadRoundTrip(s: State)
    ensures Load(Save(s)).tasks == s.tasks
    ensures Load(Save(s)).nextId == LoadCounter(s.tasks)
    ensures Valid(s) ==> Valid(Load(Save(s)))
    ensures Valid(s) && s.tasks != [] ==>
      Load(Save(s)).nextId == s.tasks[|s.tasks| - 1].id + 1 && Load(Save(s)).nextId <= s.nextId
  {
    LoadSavedTasks(s);
    if Valid(s) && s.tasks != [] {
      ReloadCounterAfterLast(s);
    }
  }

  /** A store written right after `clear` reloads as a fresh list: the counter falls back
      to 1. Ids are therefore unique only within one list object, not across reloads. */
  lemma ReloadAfterClearResetsCounter(s: State)
    ensures Load(Save(Clear(s))) == Empty()
  {
  }

  /** A concrete instance: id 1 is handed out, the list is cleared and saved, and the
      reloaded list hands out id 1 again. */
  lemma IdReusedAcrossReload(now: Timestamp)
    ensures AddTask(Empty(), "A", now).Success?
    ensures AddTask(Empty(), "A", now).value.1.id == 1
    ensures AddTask(Load(Save(Clear(AddTask(Empty(), "A", now).value.0))), "A", now).Success?
    ensures AddTask(Load(Save(Clear(AddTask(Empty(), "A", now).value.0))), "A", now).value.1.id == 1
  {
  }

  /** Scenario: an empty list, `add_task("Buy milk")`, then `list_tasks()` shows one
      pending task titled "Buy milk" with id 1. */
  lemma ScenarioAddThenList(now: Timestamp)
    ensures AddTask(Empty(), "Buy milk", now).Success?
    ensures var tasks := ListTasks(AddTask(Empty(), "Buy milk", now).value.0);
      |tasks| == 1 && tasks[0].title == "Buy milk" && tasks[0].status == Pending && tasks[0].id == 1
  {
  }

  /** Scenario: a list holding pending task 1 "Buy milk"; `mark_completed(1)` completes it
      and stamps a completion time. */
  lemma ScenarioComplete(created: Timestamp, now: Timestamp)
    ensures var s := State([NewTask(1, "Buy milk", created)], 2);
      && MarkCompleted(s, 1, now).Success?
      && var task := ListTasks(MarkCompleted(s, 1, now).value.0)[0];
      && task.status == Completed && task.completedAt == Some(now) && task.title == "Buy milk"
  {
  }

  /** Scenario: tasks 1 "A" and 2 "B"; after `clear` the list is empty and
      `add_task("C")` receives id 3. */
  lemma ScenarioClearThenAdd(now: Timestamp)
    ensures var s := State([NewTask(1, "A", now), NewTask(2, "B", now)], 3);
      && ListTasks(Clear(s)) == []
      && AddTask(Clear(s), "C", now).Success?
      && AddTask(Clear(s), "C", now).value.1.id == 3
  {
  }
}
