/** Counting what is in the queues and in the workers' hands: sentinels, stopped
    workers, and the bag of records (by `Origin`, since the stages rewrite fields). */
module PipelineCounts {
  import opened Tasks
  import opened Queues
  import opened Pipeline

  /** The origins of the records in a list. */
  function Bag(ts: seq<FileTask>): (b: multiset<FileTask>)
    ensures |b| == |ts|
  {
    if |ts| == 0 then multiset{} else multiset{Origin(ts[0])} + Bag(ts[1..])
  }

  function ItemBag(x: Item): multiset<FileTask>
  {
    if x.Task? then multiset{Origin(x.task)} else multiset{}
  }

  function HeldBag(w: WorkerState): multiset<FileTask>
  {
    if w.Holding? then multiset{Origin(w.task)} else multiset{}
  }

  /** The origins of the records waiting in a queue. */
  function QueueBag(q: seq<Item>): multiset<FileTask>
  {
    if |q| == 0 then multiset{} else ItemBag(q[0]) + QueueBag(q[1..])
  }

  /** The origins of the records the workers are holding. */
  function WorkerBag(ws: seq<WorkerState>): multiset<FileTask>
  {
    if |ws| == 0 then multiset{} else HeldBag(ws[0]) + WorkerBag(ws[1..])
  }

  function DoneCount(q: seq<Item>): nat
  {
    if |q| == 0 then 0 else (if q[0].Done? then 1 else 0) + DoneCount(q[1..])
  }

  function StoppedCount(ws: seq<WorkerState>): nat
  {
    if |ws| == 0 then 0 else (if ws[0].Stopped? then 1 else 0) + StoppedCount(ws[1..])
  }

  // ---------------------------------------------------------------------

  lemma {:induction false} BagAppend(ts: seq<FileTask>, t: FileTask)
    ensures Bag(ts + [t]) == Bag(ts) + multiset{Origin(t)}
    decreases |ts|
  {
    if |ts| > 0 {
      assert (ts + [t])[1..] == ts[1..] + [t];
      BagAppend(ts[1..], t);
    }
  }

  /** Putting an entry at the back of a queue adds its record and its sentinel. */
  lemma {:induction false} QueueAppend(q: seq<Item>, x: Item)
    ensures QueueBag(q + [x]) == QueueBag(q) + ItemBag(x)
    ensures DoneCount(q + [x]) == DoneCount(q) + (if x.Done? then 1 else 0)
    decreases |q|
  {
    if |q| > 0 {
      assert (q + [x])[1..] == q[1..] + [x];
      QueueAppend(q[1..], x);
    }
  }

  lemma {:induction false} WorkerBagConcat(a: seq<WorkerState>, b: seq<WorkerState>)
    ensures WorkerBag(a + b) == WorkerBag(a) + WorkerBag(b)
    decreases |a|
  {
    if |a| > 0 {
      assert (a + b)[0] == a[0] && (a + b)[1..] == a[1..] + b;
      WorkerBagConcat(a[1..], b);
    } else {
      assert a + b == b;
    }
  }

  /** Putting a sentinel adds no record. */
  lemma QueueAppendDone(q: seq<Item>)
    ensures QueueBag(q + [Done]) == QueueBag(q)
    ensures DoneCount(q + [Done]) == DoneCount(q) + 1
  {
    QueueAppend(q, Done);
    assert QueueBag(q) + multiset{} == QueueBag(q);
  }

  /** Changing one worker's state changes the bag by that worker's share only. */
  lemma WorkerBagUpdate(ws: seq<WorkerState>, w: nat, x: WorkerState)
    requires w < |ws|
    ensures WorkerBag(ws[w := x]) + HeldBag(ws[w]) == WorkerBag(ws) + HeldBag(x)
  {
    var pre, post := ws[..w], ws[w + 1..];
    assert ws == pre + [ws[w]] + post;
    assert ws[w := x] == pre + [x] + post;
    assert [x][1..] == [] && [ws[w]][1..] == [];
    WorkerBagConcat(pre + [x], post);
    WorkerBagConcat(pre, [x]);
    WorkerBagConcat(pre + [ws[w]], post);
    WorkerBagConcat(pre, [ws[w]]);
  }

  /** ... and the stopped count by that worker's share only. */
  lemma {:induction false} StoppedCountUpdate(ws: seq<WorkerState>, w: nat, x: WorkerState)
    requires w < |ws|
    ensures StoppedCount(ws[w := x]) + (if ws[w].Stopped? then 1 else 0)
            == StoppedCount(ws) + (if x.Stopped? then 1 else 0)
    decreases |ws|
  {
    var ws' := ws[w := x];
    if w > 0 {
      assert ws'[0] == ws[0] && ws'[1..] == ws[1..][w - 1 := x];
      StoppedCountUpdate(ws[1..], w - 1, x);
    } else {
      assert ws'[1..] == ws[1..];
    }
  }

  lemma WorkerUpdate(ws: seq<WorkerState>, w: nat, x: WorkerState)
    requires w < |ws|
    ensures WorkerBag(ws[w := x]) + HeldBag(ws[w]) == WorkerBag(ws) + HeldBag(x)
    ensures StoppedCount(ws[w := x]) + (if ws[w].Stopped? then 1 else 0)
            == StoppedCount(ws) + (if x.Stopped? then 1 else 0)
  {
    WorkerBagUpdate(ws, w, x);
    StoppedCountUpdate(ws, w, x);
  }

  /** A queue with no sentinel holds only records. */
  lemma {:induction false} NoDoneAllTasks(q: seq<Item>)
    requires DoneCount(q) == 0
    ensures forall i :: 0 <= i < |q| ==> q[i].Task?
    decreases |q|
  {
    if |q| > 0 {
      NoDoneAllTasks(q[1..]);
      assert forall i :: 1 <= i < |q| ==> q[i] == q[1..][i - 1];
    }
  }

  /** A queue of sentinels only holds no record, and its length is its sentinel count. */
  lemma {:induction false} AllDoneNoTasks(q: seq<Item>)
    requires forall i :: 0 <= i < |q| ==> q[i].Done?
    ensures QueueBag(q) == multiset{} && DoneCount(q) == |q|
    decreases |q|
  {
    if |q| > 0 {
      assert forall i :: 0 <= i < |q| - 1 ==> q[1..][i] == q[i + 1];
      AllDoneNoTasks(q[1..]);
    }
  }

  lemma {:induction false} StoppedCountBound(ws: seq<WorkerState>)
    ensures StoppedCount(ws) <= |ws|
    ensures StoppedCount(ws) == |ws| <==> forall w :: 0 <= w < |ws| ==> ws[w].Stopped?
    decreases |ws|
  {
    if |ws| > 0 {
      StoppedCountBound(ws[1..]);
      assert forall w :: 1 <= w < |ws| ==> ws[w] == ws[1..][w - 1];
    }
  }

  /** Stopped workers hold nothing. */
  lemma {:induction false} AllStoppedEmptyHanded(ws: seq<WorkerState>)
    requires forall w :: 0 <= w < |ws| ==> ws[w].Stopped?
    ensures WorkerBag(ws) == multiset{}
    decreases |ws|
  {
    if |ws| > 0 {
      assert forall w :: 0 <= w < |ws| - 1 ==> ws[1..][w] == ws[w + 1];
      AllStoppedEmptyHanded(ws[1..]);
    }
  }

  lemma {:induction false} AllWaitingCounts(n: nat)
    ensures WorkerBag(seq(n, _ => Waiting)) == multiset{}
    ensures StoppedCount(seq(n, _ => Waiting)) == 0
    decreases n
  {
    if n > 0 {
      assert seq(n, _ => Waiting)[1..] == seq(n - 1, _ => Waiting);
      AllWaitingCounts(n - 1);
    }
  }
}
