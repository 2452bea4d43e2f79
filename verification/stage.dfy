/** The invariant of one stage (its input queue and the workers that drain it) and
    how each queue operation keeps it. `sent` is how many sentinels the main thread
    has put on the queue so far. */
module Stages {
  import opened Tasks
  import opened Queues
  import opened Pipeline
  import opened PipelineCounts

  /** Nothing but sentinels follows a sentinel. */
  predicate DonesTrail(q: seq<Item>)
  {
    forall i, j :: 0 <= i < j < |q| && q[i].Done? ==> q[j].Done?
  }

  predicate OnlyDone(q: seq<Item>)
  {
    forall i :: 0 <= i < |q| ==> q[i].Done?
  }

  predicate NoneDead(ws: seq<WorkerState>)
  {
    forall w :: 0 <= w < |ws| ==> !ws[w].Dead?
  }

  predicate AllStopped(ws: seq<WorkerState>)
  {
    forall w :: 0 <= w < |ws| ==> ws[w].Stopped?
  }

  /** Every sentinel put is either still queued or has stopped exactly one worker;
      sentinels are only put behind the last record; once a worker has stopped, no
      record is left for the others; and no worker has died. */
  predicate StageOk(q: seq<Item>, ws: seq<WorkerState>, sent: nat)
  {
    && DonesTrail(q)
    && DoneCount(q) + StoppedCount(ws) == sent
    && (StoppedCount(ws) > 0 ==> OnlyDone(q))
    && NoneDead(ws)
  }

  // ---------------------------------------------------------------------

  /** The producer puts a record; it only runs while no sentinel has been put. */
  lemma PutTask(q: seq<Item>, ws: seq<WorkerState>, t: FileTask)
    requires StageOk(q, ws, 0)
    ensures StageOk(q + [Task(t)], ws, 0)
    ensures QueueBag(q + [Task(t)]) == QueueBag(q) + multiset{Origin(t)}
    ensures |QueueBag(q + [Task(t)])| == |QueueBag(q)| + 1
    ensures DoneCount(q + [Task(t)]) == DoneCount(q)
  {
    QueueAppend(q, Task(t));
    NoDoneAllTasks(q);
  }

  /** The main thread puts one more sentinel. */
  lemma PutDone(q: seq<Item>, ws: seq<WorkerState>, sent: nat)
    requires StageOk(q, ws, sent)
    ensures StageOk(q + [Done], ws, sent + 1)
    ensures QueueBag(q + [Done]) == QueueBag(q)
    ensures DoneCount(q + [Done]) == DoneCount(q) + 1
  {
    QueueAppend(q, Done);
  }

  /** Moving one record from one bag to another keeps their sum. */
  lemma Shift(a: multiset<FileTask>, b: multiset<FileTask>, a': multiset<FileTask>,
              b': multiset<FileTask>, o: FileTask)
    requires a == multiset{o} + a' || a == a' + multiset{o}
    requires b' == b + multiset{o}
    ensures a' + b' == a + b
  {
  }

  /** A waiting worker takes the queue's head: a record it will hold, or a sentinel
      that stops it. */
  lemma Take(q: seq<Item>, ws: seq<WorkerState>, sent: nat, w: nat)
    requires StageOk(q, ws, sent) && |q| > 0 && w < |ws| && ws[w].Waiting?
    ensures StageOk(q[1..], ws[w := TakeEntry(q[0])], sent)
    ensures QueueBag(q[1..]) + WorkerBag(ws[w := TakeEntry(q[0])]) == QueueBag(q) + WorkerBag(ws)
    ensures q[0].Task? ==>
      && |QueueBag(q[1..])| + 1 == |QueueBag(q)|
      && |WorkerBag(ws[w := TakeEntry(q[0])])| == |WorkerBag(ws)| + 1
      && DoneCount(q[1..]) == DoneCount(q)
    ensures q[0].Done? ==>
      && QueueBag(q[1..]) == QueueBag(q)
      && WorkerBag(ws[w := TakeEntry(q[0])]) == WorkerBag(ws)
      && DoneCount(q[1..]) + 1 == DoneCount(q)
  {
    TakeKeepsStage(q, ws, sent, w);
    var ws' := ws[w := TakeEntry(q[0])];
    WorkerUpdate(ws, w, TakeEntry(q[0]));
    assert HeldBag(ws[w]) == multiset{};
    if q[0].Task? {
      var o := Origin(q[0].task);
      assert WorkerBag(ws') == WorkerBag(ws) + multiset{o};
      assert QueueBag(q) == multiset{o} + QueueBag(q[1..]);
      Shift(QueueBag(q), WorkerBag(ws), QueueBag(q[1..]), WorkerBag(ws'), o);
    } else {
      assert HeldBag(TakeEntry(q[0])) == multiset{};
      assert WorkerBag(ws') + multiset{} == WorkerBag(ws');
      assert WorkerBag(ws) + multiset{} == WorkerBag(ws);
      assert QueueBag(q) == ItemBag(q[0]) + QueueBag(q[1..]);
    }
  }

  lemma TakeKeepsStage(q: seq<Item>, ws: seq<WorkerState>, sent: nat, w: nat)
    requires StageOk(q, ws, sent) && |q| > 0 && w < |ws| && ws[w].Waiting?
    ensures StageOk(q[1..], ws[w := TakeEntry(q[0])], sent)
  {
    var ws' := ws[w := TakeEntry(q[0])];
    StoppedCountUpdate(ws, w, TakeEntry(q[0]));
    assert forall i :: 0 <= i < |q| - 1 ==> q[1..][i] == q[i + 1];
    assert NoneDead(ws') by {
      assert forall v :: 0 <= v < |ws'| && v != w ==> ws'[v] == ws[v];
    }
    if q[0].Done? {
      assert OnlyDone(q);
    } else {
      assert StoppedCount(ws) == 0;
    }
  }

  /** A record leaves the queue without a worker state change (the verifier, which
      appends it to its list at once). */
  lemma DropTask(q: seq<Item>, ws: seq<WorkerState>, sent: nat)
    requires StageOk(q, ws, sent) && |q| > 0 && q[0].Task?
    ensures StageOk(q[1..], ws, sent)
    ensures QueueBag(q) == multiset{Origin(q[0].task)} + QueueBag(q[1..])
    ensures DoneCount(q[1..]) == DoneCount(q)
  {
    assert forall i :: 0 <= i < |q| - 1 ==> q[1..][i] == q[i + 1];
    assert StoppedCount(ws) == 0;
  }

  /** A holding worker finishes its record and goes back to `get()`. */
  lemma Release(q: seq<Item>, ws: seq<WorkerState>, sent: nat, w: nat)
    requires StageOk(q, ws, sent) && w < |ws| && ws[w].Holding?
    ensures StageOk(q, ws[w := Waiting], sent)
    ensures WorkerBag(ws[w := Waiting]) + multiset{Origin(ws[w].task)} == WorkerBag(ws)
    ensures |WorkerBag(ws[w := Waiting])| + 1 == |WorkerBag(ws)|
  {
    var ws' := ws[w := Waiting];
    WorkerUpdate(ws, w, Waiting);
    assert NoneDead(ws') by {
      assert forall v :: 0 <= v < |ws'| && v != w ==> ws'[v] == ws[v];
    }
  }

  /** When every worker has stopped, the queue is empty and the workers hold nothing. */
  lemma Drained(q: seq<Item>, ws: seq<WorkerState>)
    requires StageOk(q, ws, |ws|) && |ws| > 0 && AllStopped(ws)
    ensures q == [] && WorkerBag(ws) == multiset{}
  {
    StoppedCountBound(ws);
    AllDoneNoTasks(q);
    AllStoppedEmptyHanded(ws);
  }

  /** A worker that is still running is either holding a record or has one to take. */
  lemma Runnable(q: seq<Item>, ws: seq<WorkerState>, w: nat)
    requires StageOk(q, ws, |ws|) && w < |ws| && !ws[w].Stopped? && !ws[w].Holding?
    ensures ws[w].Waiting? && |q| > 0
  {
    StoppedCountBound(ws);
  }
}
