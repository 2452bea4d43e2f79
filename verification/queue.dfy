/** Stage queues and the loops that feed and drain them: the dispatcher, the
    sentinel puts of the shutdown sequence, and one worker's `while True` loop. */
module Queues {
  import opened Wrappers
  import opened Tasks

  /** A queue entry: a record, or the `DONE = None` sentinel. */
  datatype Item = Task(task: FileTask) | Done

  /** Position of the first sentinel, or the queue length when there is none. */
  function FirstDone(q: seq<Item>): (n: nat)
    ensures n <= |q|
    ensures n < |q| ==> q[n].Done?
    ensures forall i :: 0 <= i < n ==> q[i].Task?
    decreases |q|
  {
    if |q| == 0 then 0
    else if q[0].Done? then 0
    else 1 + FirstDone(q[1..])
  }

  /** The records, in order, as queue entries. */
  function AsItems(files: seq<FileTask>): (q: seq<Item>)
    ensures |q| == |files|
    ensures forall i :: 0 <= i < |q| ==> q[i] == Task(files[i])
  {
    seq(|files|, i requires 0 <= i < |files| => Task(files[i]))
  }

  /** `k` sentinels. */
  function Sentinels(k: nat): (q: seq<Item>)
    ensures |q| == k
    ensures forall i :: 0 <= i < k ==> q[i] == Done
  {
    seq(k, i => Done)
  }

  /** `dispatcher(files)`: put every file on the queue, one after another. */
  method Dispatcher(files: seq<FileTask>, q0: seq<Item>) returns (q: seq<Item>)
    ensures |q| == |q0| + |files| && q[..|q0|] == q0
    ensures forall i :: 0 <= i < |files| ==> q[|q0| + i] == Task(files[i])
  {
    q := q0;
    for i := 0 to |files|
      invariant |q| == |q0| + i && q[..|q0|] == q0
      invariant forall j :: 0 <= j < i ==> q[|q0| + j] == Task(files[j])
    {
      q := q + [Task(files[i])];
    }
  }

  /** `for _ in range(k): queue.put(DONE)`. */
  method PutSentinels(q0: seq<Item>, k: nat) returns (q: seq<Item>)
    ensures |q| == |q0| + k && q[..|q0|] == q0
    ensures forall i :: |q0| <= i < |q| ==> q[i] == Done
  {
    q := q0;
    for i := 0 to k
      invariant |q| == |q0| + i && q[..|q0|] == q0
      invariant forall j :: |q0| <= j < |q| ==> q[j] == Done
    {
      q := q + [Done];
    }
  }

  /** How a worker loop ended: it took a sentinel, it is still waiting on an empty
      queue, or an exception ended its thread. */
  datatype WorkerEnd = TookDone | StillWaiting | Raised

  /** One worker's loop over the entries in `q`, run alone: take an entry; stop on a
      sentinel; otherwise pass the record through `step` and forward the result.
      `step(i, t)` is the stage applied to the `i`-th entry taken (its index tells
      the copy stage which clock reading and UUID it sees); `None` is an exception. */
  method RunWorker(q: seq<Item>, step: (nat, FileTask) -> Option<FileTask>)
    returns (out: seq<FileTask>, rest: seq<Item>, end: WorkerEnd)
    ensures |out| <= FirstDone(q)
    ensures forall i :: 0 <= i < |out| ==> step(i, q[i].task) == Some(out[i])
    ensures end == Raised <==> |out| < FirstDone(q)
    ensures end == Raised ==> step(|out|, q[|out|].task).None? && rest == q[|out| + 1..]
    ensures end == TookDone ==> |out| < |q| && q[|out|] == Done && rest == q[|out| + 1..]
    ensures end == StillWaiting ==> |out| == |q| && rest == []
  {
    out := [];
    var i := 0;
    while i < |q| && q[i].Task? && step(i, q[i].task).Some?
      invariant 0 <= i <= |q|
      invariant forall j :: 0 <= j < i ==> q[j].Task?
      invariant |out| == i
      invariant forall j :: 0 <= j < i ==> step(j, q[j].task) == Some(out[j])
    {
      out := out + [step(i, q[i].task).value];
      i := i + 1;
    }
    if i == |q| {
      rest, end := [], StillWaiting;
    } else if q[i].Done? {
      rest, end := q[i + 1..], TookDone;
    } else {
      rest, end := q[i + 1..], Raised;
    }
  }

  /** The input queue of a stage once its producer has finished and the shutdown
      sequence has put `k` sentinels after it: the records in order, then `k` sentinels. */
  method FillStageQueue(files: seq<FileTask>, k: nat) returns (q: seq<Item>)
    ensures q == AsItems(files) + Sentinels(k)
  {
    q := Dispatcher(files, []);
    q := PutSentinels(q, k);
  }

  /** Behind the records come the sentinels, so the first sentinel sits right after
      the last record. */
  lemma FirstDoneAfterRecords(files: seq<FileTask>, k: nat)
    requires k >= 1
    ensures FirstDone(AsItems(files) + Sentinels(k)) == |files|
  {
    var q := AsItems(files) + Sentinels(k);
    assert q[|files|] == Done;
    assert forall i :: 0 <= i < |files| ==> q[i] == Task(files[i]);
  }

  /** One worker alone on its stage's filled queue: it forwards the records in order
      and, unless the stage raised, stops on the first sentinel, leaving the other
      `k - 1` for nobody. */
  method DrainAlone(files: seq<FileTask>, k: nat, step: (nat, FileTask) -> Option<FileTask>)
    returns (out: seq<FileTask>, rest: seq<Item>, end: WorkerEnd)
    requires k >= 1
    ensures |out| <= |files|
    ensures forall i :: 0 <= i < |out| ==> step(i, files[i]) == Some(out[i])
    ensures end == Raised <==> |out| < |files|
    ensures end == Raised ==> step(|out|, files[|out|]).None?
    ensures end != Raised ==> end == TookDone && rest == Sentinels(k - 1)
  {
    var q := FillStageQueue(files, k);
    FirstDoneAfterRecords(files, k);
    out, rest, end := RunWorker(q, step);
    assert forall i :: 0 <= i < |files| ==> q[i] == Task(files[i]);
    if end != Raised {
      assert q[|files| + 1..] == Sentinels(k - 1);
    }
  }
}
