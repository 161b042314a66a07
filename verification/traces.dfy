/** A run of calls on one `TodoList` object, each with the clock reading at the time of
    the call. A call that raises `ValueError` leaves the list as it was; the properties
    here are about the ids handed out over a whole run. */
module Traces {
  import opened Wrappers
  import opened Strings
  import opened Tasks
  import opened TodoLists
  import opened TodoListLemmas

  /** The mutating calls a caller can make. */
  datatype Call =
    | Add(title: string)
    | Complete(id: int)
    | Update(id: int, title: string)
    | ClearAll

  /** A call together with what the clock reads when it is made. */
  datatype Event = Event(call: Call, now: Timestamp)

  /** The list after one call. A call that raises `ValueError` changes nothing. */
  function Step(s: State, e: Event): (s': State)
    ensures e.call.Add? && AllSpace(e.call.title) ==> s' == s
    ensures e.call.Complete? && e.call.id !in Ids(s.tasks) ==> s' == s
    ensures e.call.Update? && (AllSpace(e.call.title) || e.call.id !in Ids(s.tasks)) ==> s' == s
    ensures s'.nextId == s.nextId + (if e.call.Add? && !AllSpace(e.call.title) then 1 else 0)
    ensures IdsBelowCounter(s) ==> IdsBelowCounter(s')
    ensures Valid(s) ==> Valid(s')
  {
    match e.call
    case Add(title) =>
      var r := AddTask(s, title, e.now);
      if r.Success? then AddTaskKeepsInvariant(s, title, e.now); r.value.0 else s
    case Complete(id) =>
      var r := MarkCompleted(s, id, e.now);
      if r.Success? then MarkCompletedKeepsInvariant(s, id, e.now); r.value.0 else s
    case Update(id, title) =>
      var r := UpdateTask(s, id, title);
      if r.Success? then UpdateTaskKeepsInvariant(s, id, title); r.value.0 else s
    case ClearAll => Clear(s)
  }

  /** The list after a whole run. */
  function Run(s: State, events: seq<Event>): (s': State)
    decreases |events|
  {
    if events == [] then s else Run(Step(s, events[0]), events[1..])
  }

  /** The ids of the tasks that the run's successful `add_task` calls return, in order. */
  function IssuedIds(s: State, events: seq<Event>): (ids: seq<int>)
    decreases |events|
  {
    if events == [] then []
    else
      var e := events[0];
      var issued := if e.call.Add? && AddTask(s, e.call.title, e.now).Success?
        then [AddTask(s, e.call.title, e.now).value.1.id] else [];
      issued + IssuedIds(Step(s, e), events[1..])
  }

  /** Over any run, including runs that clear the list, the ids handed out are the
      consecutive integers starting at the counter's initial value, and the counter ends
      just past the last of them: no gaps and no id handed out twice. */
  lemma {:induction false} IssuedIdsAreConsecutive(s: State, events: seq<Event>)
    ensures forall k :: 0 <= k < |IssuedIds(s, events)| ==> IssuedIds(s, events)[k] == s.nextId + k
    ensures Run(s, events).nextId == s.nextId + |IssuedIds(s, events)|
    decreases |events|
  {
    if events != [] {
      var e := events[0];
      var s' := Step(s, e);
      IssuedIdsAreConsecutive(s', events[1..]);
    }
  }

  /** Every run keeps the invariants. */
  lemma {:induction false} RunKeepsInvariant(s: State, events: seq<Event>)
    ensures IdsBelowCounter(s) ==> IdsBelowCounter(Run(s, events))
    ensures Valid(s) ==> Valid(Run(s, events))
    decreases |events|
  {
    if events != [] {
      RunKeepsInvariant(Step(s, events[0]), events[1..]);
    }
  }

  /** On a list built without a store, the k-th successful `add_task` receives id k + 1,
      and the ids handed out strictly increase, whatever else happens in between. */
  lemma FreshListIssuesOneTwoThree(events: seq<Event>)
    ensures forall k :: 0 <= k < |IssuedIds(Empty(), events)| ==> IssuedIds(Empty(), events)[k] == k + 1
    ensures forall i, j :: 0 <= i < j < |IssuedIds(Empty(), events)| ==> IssuedIds(Empty(), events)[i] < IssuedIds(Empty(), events)[j]
    ensures Valid(Run(Empty(), events))
  {
    IssuedIdsAreConsecutive(Empty(), events);
    RunKeepsInvariant(Empty(), events);
  }

  /** After any run from a list whose ids lie below its counter, the next successful
      `add_task` receives an id larger than every id present at the start of the run. */
  lemma NextAddIsFreshAfterRun(s: State, events: seq<Event>, title: string, now: Timestamp)
    requires IdsBelowCounter(s)
    requires !AllSpace(title)
    ensures AddTask(Run(s, events), title, now).Success?
    ensures forall i :: 0 <= i < |s.tasks| ==> s.tasks[i].id < AddTask(Run(s, events), title, now).value.1.id
  {
    IssuedIdsAreConsecutive(s, events);
  }
}
