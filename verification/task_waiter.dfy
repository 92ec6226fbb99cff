/**
 * The task waiter: resolve a task by its description (`get_task`) and poll its state
 * until it completes, fails, or the time budget runs out (`wait`).
 *
 * Time is an abstract clock that only the five-second sleeps advance, so the k-th status
 * check (from 0) happens 5 * k seconds after the clock is started.
 */
module TaskWaiter {
  import opened EarthEngine

  /** Seconds slept before resolving the task and before every status check. */
  const PollInterval: nat := 5

  /** `wait`'s default timeout, in seconds. */
  const DefaultTimeout: int := 60

  /** What `wait` is given: a task object or the description of one. */
  datatype TaskRef = Handle(task: Task) | Described(description: string)

  /** The first task of the list, in list order, whose description is `description`. */
  function FindTask(tasks: seq<Task>, description: string): (r: Option<Task>)
    ensures r.None? <==> forall k :: 0 <= k < |tasks| ==> tasks[k].description != description
    ensures r.Some? ==> exists k :: 0 <= k < |tasks| && tasks[k] == r.value
                          && tasks[k].description == description
                          && forall j :: 0 <= j < k ==> tasks[j].description != description
  {
    if tasks == [] then None
    else if tasks[0].description == description then Some(tasks[0])
    else
      var r := FindTask(tasks[1..], description);
      assert forall k :: 1 <= k < |tasks| ==> tasks[k] == tasks[1..][k - 1];
      r
  }

  /** `get_task`: a scan of the task list that stops at the first match. */
  method GetTask(tasks: seq<Task>, description: string) returns (r: Option<Task>)
    ensures r == FindTask(tasks, description)
  {
    r := None;
    var i := 0;
    while i < |tasks|
      invariant 0 <= i <= |tasks|
      invariant FindTask(tasks, description) == FindTask(tasks[i..], description)
    {
      if tasks[i].description == description {
        r := Some(tasks[i]);
        return;
      }
      assert tasks[i..][1..] == tasks[i + 1..];
      i := i + 1;
    }
  }

  /** The task `wait` polls, if it can find one. */
  function Resolve(ref: TaskRef, tasks: seq<Task>): Option<Task>
  {
    match ref
    case Handle(t) => Some(t)
    case Described(d) => FindTask(tasks, d)
  }

  /** States on which `wait` stops before its time is up. */
  predicate Stops(s: TaskState)
  {
    s == Completed || s == Failed
  }

  /** How many status checks fit in `timeout` seconds: one at each elapsed time
      0, 5, 10, ... that is still below the timeout. */
  function PollBudget(timeout: int): (n: nat)
    ensures n * PollInterval >= timeout
    ensures n > 0 ==> (n - 1) * PollInterval < timeout
  {
    if timeout <= 0 then 0 else (timeout - 1) / PollInterval + 1
  }

  /**
   * `wait`: poll the resolved task every five seconds. It stops as soon as a check reports
   * COMPLETED or FAILED, and otherwise when the clock reaches the timeout; it returns the
   * last state checked, or UNSUBMITTED if no check ran. `polls` counts the checks.
   */
  method Wait(ref: TaskRef, tasks: seq<Task>, timeout: int) returns (r: Result<TaskState>, polls: nat)
    ensures r.Err? <==> Resolve(ref, tasks).None?
    ensures r.Err? ==> r.error == TaskNotFound && polls == 0
    ensures r.Ok? ==>
      var t := Resolve(ref, tasks).value;
      && polls <= PollBudget(timeout)
      && (polls == 0 ==> r.value == Unsubmitted)
      && (polls > 0 ==> r.value == Status(t, polls - 1))
      && (forall k :: 0 <= k < polls - 1 ==> !Stops(Status(t, k)))
      && (polls < PollBudget(timeout) ==> Stops(r.value))
    ensures r.Ok? && timeout <= 0 ==> r.value == Unsubmitted
  {
    var now := PollInterval;  // the initial sleep
    polls := 0;
    var found: Option<Task>;
    match ref {
      case Handle(t) => found := Some(t);
      case Described(d) => found := GetTask(tasks, d);
    }
    if found.None? {
      return Err(TaskNotFound), 0;
    }
    var task := found.value;
    var state := Unsubmitted;
    var start := now;
    while state != Completed && now - start < timeout
      invariant now == start + polls * PollInterval
      invariant polls <= PollBudget(timeout)
      invariant polls == 0 ==> state == Unsubmitted
      invariant polls > 0 ==> state == Status(task, polls - 1)
      invariant forall k :: 0 <= k < polls - 1 ==> !Stops(Status(task, k))
      invariant polls > 0 ==> state != Failed
      decreases timeout - (now - start)
    {
      now := now + PollInterval;
      state := Status(task, polls);
      polls := polls + 1;
      if state == Failed {
        break;
      }
    }
    r := Ok(state);
  }
}
