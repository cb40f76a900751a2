/**
 * Running a batch of tasks together: all are started in list order before any is awaited, they
 * settle in whatever order they like, and the outcomes come back in list order.
 */
module ParallelTasks {
  import opened Common

  datatype Task<+T> = Fulfilled(value: T) | Rejected(error: Error)

  /** What one task settled as, in list order; a task's failure is reported, never thrown. */
  datatype SettledTask<+T> = Ok(value: T) | Unwound(error: Error)

  function Reported<T>(task: Task<T>): SettledTask<T> {
    match task
    case Fulfilled(v) => Ok(v)
    case Rejected(e) => Unwound(e)
  }

  /** An order in which `n` tasks may settle: each once. */
  ghost predicate IsCompletionOrder(order: seq<nat>, n: nat) {
    && |order| == n
    && (forall i :: 0 <= i < n ==> i in order)
    && (forall k :: 0 <= k < |order| ==> order[k] < n)
  }

  /** What the journal gains: each task that came back, at its place in the block of positions. */
  function Gains<T>(tasks: seq<Task<T>>): map<nat, T> {
    map i | 0 <= i < |tasks| && tasks[i].Fulfilled? :: tasks[i].value
  }

  /**
   * Starts the tasks in list order, which gives each its place in a block of positions, and lets them
   * settle in `order`. Neither the outcomes nor what the journal gains depend on that order.
   */
  method SettleAll<T>(tasks: seq<Task<T>>, order: seq<nat>)
    returns (outcomes: seq<SettledTask<T>>, journal: map<nat, T>)
    requires IsCompletionOrder(order, |tasks|)
    ensures |outcomes| == |tasks|
    ensures forall i :: 0 <= i < |tasks| ==> outcomes[i] == Reported(tasks[i])
    ensures journal == Gains(tasks)
  {
    var settled: map<nat, SettledTask<T>> := map[];
    journal := map[];
    for k := 0 to |order|
      invariant forall i :: i in settled <==> i in order[..k]
      invariant forall i :: i in settled ==> i < |tasks| && settled[i] == Reported(tasks[i])
      invariant forall i :: i in journal <==> i in settled && tasks[i].Fulfilled?
      invariant forall i :: i in journal ==> journal[i] == tasks[i].value
    {
      var i := order[k];
      assert order[..k + 1] == order[..k] + [i];
      settled := settled[i := Reported(tasks[i])];
      if tasks[i].Fulfilled? {
        journal := journal[i := tasks[i].value];
      }
    }
    assert order[..|order|] == order;
    outcomes := seq(|tasks|, i requires 0 <= i < |tasks| && i in settled => settled[i]);
  }

  /** The first task to have unwound, in list order: what a batch rethrows, before persisting anything. */
  method FirstUnwound<T>(outcomes: seq<SettledTask<T>>) returns (first: Option<Error>)
    ensures first.None? <==> forall i :: 0 <= i < |outcomes| ==> outcomes[i].Ok?
    ensures first.Some? ==> exists i :: 0 <= i < |outcomes| && outcomes[i] == Unwound(first.value)
                                        && forall j :: 0 <= j < i ==> outcomes[j].Ok?
  {
    for i := 0 to |outcomes|
      invariant forall j :: 0 <= j < i ==> outcomes[j].Ok?
    {
      if outcomes[i].Unwound? {
        return Some(outcomes[i].error);
      }
    }
    first := None;
  }
}
