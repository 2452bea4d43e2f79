/** The pipeline's invariant, the measure that every step lowers by one, and the
    proof that every enabled action keeps the one and lowers the other. */
module PipelineInvariant {
  import opened Wrappers
  import Timestamps
  import Uuids
  import opened Tasks
  import opened Queues
  import opened Pipeline
  import opened PipelineCounts
  import opened Stages

  /** How far the main thread has got through its shutdown sequence. */
  function Phase(c: Coordinator): nat
  {
    match c
    case JoinDispatcher => 0
    case SendS3Done(_) => 1
    case JoinS3 => 2
    case SendApiDone(_) => 3
    case JoinApi => 4
    case SendVerifyDone => 5
    case JoinVerifier => 6
    case Complete => 7
  }

  /** Sentinels the main thread has put on each queue so far. */
  function S3Sent(s: State): nat
  {
    match s.main
    case JoinDispatcher => 0
    case SendS3Done(left) => if left <= |s.s3Workers| then |s.s3Workers| - left else 0
    case _ => |s.s3Workers|
  }

  function ApiSent(s: State): nat
  {
    if Phase(s.main) < 3 then 0
    else match s.main
      case SendApiDone(left) => if left <= |s.apiWorkers| then |s.apiWorkers| - left else 0
      case _ => |s.apiWorkers|
  }

  function VerifySent(s: State): nat
  {
    if Phase(s.main) < 6 then 0 else 1
  }

  /** Every record in the queue satisfies `p`. */
  predicate QueueAll(q: seq<Item>, p: FileTask -> bool)
  {
    forall i :: 0 <= i < |q| && q[i].Task? ==> p(q[i].task)
  }

  /** Every record a worker holds satisfies `p`. */
  predicate HeldAll(ws: seq<WorkerState>, p: FileTask -> bool)
  {
    forall w :: 0 <= w < |ws| && ws[w].Holding? ==> p(ws[w].task)
  }

  predicate ListAll(ts: seq<FileTask>, p: FileTask -> bool)
  {
    forall i :: 0 <= i < |ts| ==> p(ts[i])
  }

  /** Every record wherever it is, in pipeline order; the verifier never holds one. */
  function Total(s: State): multiset<FileTask>
  {
    Bag(s.pending) + (QueueBag(s.s3Queue) + (WorkerBag(s.s3Workers) + (QueueBag(s.apiQueue)
      + (WorkerBag(s.apiWorkers) + (QueueBag(s.verifyQueue) + Bag(s.processed))))))
  }

  /** The main thread's progress and the workers' life cycle agree: sentinels only go
      out once the stage before has finished. */
  predicate Shape(s: State)
  {
    && |s.s3Workers| >= 1 && |s.apiWorkers| >= 1
    && (s.main.SendS3Done? ==> s.main.left <= |s.s3Workers|)
    && (s.main.SendApiDone? ==> s.main.left <= |s.apiWorkers|)
    && (|s.pending| > 0 ==> s.main.JoinDispatcher?)
    && (Phase(s.main) >= 3 ==> AllStopped(s.s3Workers))
    && (Phase(s.main) >= 5 ==> AllStopped(s.apiWorkers))
    && (Phase(s.main) == 7 ==> s.verifier.Stopped?)
    && !s.verifier.Holding?
  }

  /** Each stage's queue and workers account for the sentinels put on it. */
  predicate Flow(s: State)
  {
    && StageOk(s.s3Queue, s.s3Workers, S3Sent(s))
    && StageOk(s.apiQueue, s.apiWorkers, ApiSent(s))
    && StageOk(s.verifyQueue, [s.verifier], VerifySent(s))
  }

  /** What each stage has done to the records it passed on. */
  predicate Records(s: State)
  {
    && QueueAll(s.apiQueue, Copied) && HeldAll(s.apiWorkers, Copied)
    && QueueAll(s.verifyQueue, Uploaded) && ListAll(s.processed, Uploaded)
  }

  /** No record lost, none duplicated. */
  predicate Conserved(files: seq<FileTask>, s: State)
  {
    Total(s) == Bag(files)
  }

  /** What holds in every reachable state of a run over `files`. */
  predicate Inv(files: seq<FileTask>, s: State)
  {
    Shape(s) && Flow(s) && Records(s) && Conserved(files, s)
  }

  /** The main thread's share of the work left: two units per sentinel still to put
      (the put and the take), one per join. */
  function MainRank(s: State): nat
  {
    var k1, k2 := |s.s3Workers|, |s.apiWorkers|;
    match s.main
    case JoinDispatcher => 8 + 2 * k2 + 2 * k1
    case SendS3Done(left) => 7 + 2 * k2 + 2 * left
    case JoinS3 => 6 + 2 * k2
    case SendApiDone(left) => 5 + 2 * left
    case JoinApi => 4
    case SendVerifyDone => 3
    case JoinVerifier => 1
    case Complete => 0
  }

  /** Steps left: a record still to be dispatched costs six, one waiting for the
      copy stage five, and so on down to one waiting for the verifier. */
  function Measure(s: State): nat
  {
    6 * |s.pending| + 5 * |QueueBag(s.s3Queue)| + 4 * |WorkerBag(s.s3Workers)|
    + 3 * |QueueBag(s.apiQueue)| + 2 * |WorkerBag(s.apiWorkers)| + |QueueBag(s.verifyQueue)|
    + DoneCount(s.s3Queue) + DoneCount(s.apiQueue) + DoneCount(s.verifyQueue)
    + MainRank(s)
  }

  // ---------------------------------------------------------------------

  /** Two neighbouring parts of a nested sum trade records; the sum is unchanged. */
  lemma Regroup(a: multiset<FileTask>, b: multiset<FileTask>, a': multiset<FileTask>,
                b': multiset<FileTask>, rest: multiset<FileTask>)
    requires a' + b' == a + b
    ensures a' + (b' + rest) == a + (b + rest)
  {
    assert a' + (b' + rest) == (a' + b') + rest;
    assert a + (b + rest) == (a + b) + rest;
  }

  lemma QueueAllAppend(q: seq<Item>, x: Item, p: FileTask -> bool)
    requires QueueAll(q, p) && (x.Task? ==> p(x.task))
    ensures QueueAll(q + [x], p)
  {
    assert forall i :: 0 <= i < |q| ==> (q + [x])[i] == q[i];
  }

  lemma QueueAllTail(q: seq<Item>, p: FileTask -> bool)
    requires QueueAll(q, p) && |q| > 0
    ensures QueueAll(q[1..], p)
    ensures q[0].Task? ==> p(q[0].task)
  {
    assert forall i :: 0 <= i < |q| - 1 ==> q[1..][i] == q[i + 1];
  }

  lemma HeldAllUpdate(ws: seq<WorkerState>, w: nat, x: WorkerState, p: FileTask -> bool)
    requires HeldAll(ws, p) && w < |ws| && (x.Holding? ==> p(x.task))
    ensures HeldAll(ws[w := x], p)
  {
    assert forall v :: 0 <= v < |ws| && v != w ==> ws[w := x][v] == ws[v];
  }

  lemma ListAllAppend(ts: seq<FileTask>, t: FileTask, p: FileTask -> bool)
    requires ListAll(ts, p) && p(t)
    ensures ListAll(ts + [t], p)
  {
    assert forall i :: 0 <= i < |ts| ==> (ts + [t])[i] == ts[i];
  }

  /** A step that leaves the main thread where it is changes no sentinel count. */
  lemma SameMain(s: State, s': State)
    requires s'.main == s.main
    requires |s'.s3Workers| == |s.s3Workers| && |s'.apiWorkers| == |s.apiWorkers|
    ensures S3Sent(s') == S3Sent(s) && ApiSent(s') == ApiSent(s) && VerifySent(s') == VerifySent(s)
    ensures MainRank(s') == MainRank(s)
  {
  }

  lemma WorkerWaitingNotAllStopped(ws: seq<WorkerState>, w: nat)
    requires w < |ws| && !ws[w].Stopped?
    ensures !AllStopped(ws)
  {
  }

  // ---------------------------------------------------------------------
  // Each action, for each part of the invariant.

  lemma DispatchFlow(s: State)
    requires Shape(s) && Flow(s) && Enabled(s, Dispatch)
    ensures Shape(Next(s, Dispatch)) && Flow(Next(s, Dispatch))
    ensures Measure(Next(s, Dispatch)) + 1 == Measure(s)
  {
    SameMain(s, Next(s, Dispatch));
    PutTask(s.s3Queue, s.s3Workers, s.pending[0]);
  }

  lemma DispatchConserved(files: seq<FileTask>, s: State)
    requires Conserved(files, s) && Enabled(s, Dispatch)
    ensures Conserved(files, Next(s, Dispatch))
  {
    var t := s.pending[0];
    var s' := Next(s, Dispatch);
    QueueAppend(s.s3Queue, Task(t));
    assert Bag(s.pending) == multiset{Origin(t)} + Bag(s'.pending);
    Shift(Bag(s.pending), QueueBag(s.s3Queue), Bag(s'.pending), QueueBag(s'.s3Queue), Origin(t));
    Regroup(Bag(s.pending), QueueBag(s.s3Queue), Bag(s'.pending), QueueBag(s'.s3Queue),
            WorkerBag(s.s3Workers) + (QueueBag(s.apiQueue) + (WorkerBag(s.apiWorkers)
              + (QueueBag(s.verifyQueue) + Bag(s.processed)))));
  }

  lemma S3TakeFlow(s: State, w: nat)
    requires Shape(s) && Flow(s) && Enabled(s, S3Take(w))
    ensures Shape(Next(s, S3Take(w))) && Flow(Next(s, S3Take(w)))
    ensures Measure(Next(s, S3Take(w))) + 1 == Measure(s)
    ensures QueueBag(Next(s, S3Take(w)).s3Queue) + WorkerBag(Next(s, S3Take(w)).s3Workers)
         == QueueBag(s.s3Queue) + WorkerBag(s.s3Workers)
  {
    SameMain(s, Next(s, S3Take(w)));
    WorkerWaitingNotAllStopped(s.s3Workers, w);
    Take(s.s3Queue, s.s3Workers, S3Sent(s), w);
  }

  lemma S3TakeConserved(files: seq<FileTask>, s: State, s': State)
    requires Conserved(files, s)
    requires s' == s.(s3Workers := s'.s3Workers, s3Queue := s'.s3Queue)
    requires QueueBag(s'.s3Queue) + WorkerBag(s'.s3Workers) == QueueBag(s.s3Queue) + WorkerBag(s.s3Workers)
    ensures Conserved(files, s')
  {
    Regroup(QueueBag(s.s3Queue), WorkerBag(s.s3Workers), QueueBag(s'.s3Queue), WorkerBag(s'.s3Workers),
            QueueBag(s.apiQueue) + (WorkerBag(s.apiWorkers) + (QueueBag(s.verifyQueue) + Bag(s.processed))));
  }

  /** The state after worker `w` of the copy stage puts `t'` on the API queue. */
  function AfterCopy(s: State, w: nat, t': FileTask): State
    requires w < |s.s3Workers|
  {
    s.(s3Workers := s.s3Workers[w := Waiting], apiQueue := s.apiQueue + [Task(t')])
  }

  lemma S3CopyFlow(s: State, w: nat, t': FileTask)
    requires Shape(s) && Flow(s) && w < |s.s3Workers| && s.s3Workers[w].Holding?
    ensures Shape(AfterCopy(s, w, t')) && Flow(AfterCopy(s, w, t'))
    ensures Measure(AfterCopy(s, w, t')) + 1 == Measure(s)
  {
    SameMain(s, AfterCopy(s, w, t'));
    WorkerWaitingNotAllStopped(s.s3Workers, w);
    Release(s.s3Queue, s.s3Workers, S3Sent(s), w);
    PutTask(s.apiQueue, s.apiWorkers, t');
  }

  lemma S3CopyRecords(s: State, w: nat, t': FileTask)
    requires Records(s) && w < |s.s3Workers| && Copied(t')
    ensures Records(AfterCopy(s, w, t'))
  {
    QueueAllAppend(s.apiQueue, Task(t'), Copied);
  }

  lemma S3CopyConserved(files: seq<FileTask>, s: State, w: nat, t': FileTask)
    requires Conserved(files, s) && w < |s.s3Workers| && s.s3Workers[w].Holding?
    requires Origin(t') == Origin(s.s3Workers[w].task)
    ensures Conserved(files, AfterCopy(s, w, t'))
  {
    var s' := AfterCopy(s, w, t');
    WorkerBagUpdate(s.s3Workers, w, Waiting);
    QueueAppend(s.apiQueue, Task(t'));
    Shift(WorkerBag(s.s3Workers), QueueBag(s.apiQueue), WorkerBag(s'.s3Workers), QueueBag(s'.apiQueue), Origin(t'));
    Regroup(WorkerBag(s.s3Workers), QueueBag(s.apiQueue), WorkerBag(s'.s3Workers), QueueBag(s'.apiQueue),
            WorkerBag(s.apiWorkers) + (QueueBag(s.verifyQueue) + Bag(s.processed)));
  }

  lemma S3CopyStep(files: seq<FileTask>, s: State, w: nat, clock: Timestamps.Clock, id: Uuids.Uuid)
    requires Inv(files, s) && Enabled(s, S3Copy(w, clock, id))
    ensures Inv(files, Next(s, S3Copy(w, clock, id)))
    ensures Measure(Next(s, S3Copy(w, clock, id))) + 1 == Measure(s)
  {
    var t' := CopyStage(s.s3Workers[w].task, clock, id);
    assert Next(s, S3Copy(w, clock, id)) == AfterCopy(s, w, t');
    S3CopyFlow(s, w, t');
    S3CopyRecords(s, w, t');
    S3CopyConserved(files, s, w, t');
  }

  lemma ApiTakeFlow(s: State, w: nat)
    requires Shape(s) && Flow(s) && Enabled(s, ApiTake(w))
    ensures Shape(Next(s, ApiTake(w))) && Flow(Next(s, ApiTake(w)))
    ensures Measure(Next(s, ApiTake(w))) + 1 == Measure(s)
    ensures QueueBag(Next(s, ApiTake(w)).apiQueue) + WorkerBag(Next(s, ApiTake(w)).apiWorkers)
         == QueueBag(s.apiQueue) + WorkerBag(s.apiWorkers)
  {
    SameMain(s, Next(s, ApiTake(w)));
    WorkerWaitingNotAllStopped(s.apiWorkers, w);
    Take(s.apiQueue, s.apiWorkers, ApiSent(s), w);
  }

  lemma ApiTakeRecords(s: State, w: nat)
    requires Records(s) && Enabled(s, ApiTake(w))
    ensures Records(Next(s, ApiTake(w)))
  {
    QueueAllTail(s.apiQueue, Copied);
    HeldAllUpdate(s.apiWorkers, w, TakeEntry(s.apiQueue[0]), Copied);
  }

  lemma ApiTakeConserved(files: seq<FileTask>, s: State, s': State)
    requires Conserved(files, s)
    requires s' == s.(apiWorkers := s'.apiWorkers, apiQueue := s'.apiQueue)
    requires QueueBag(s'.apiQueue) + WorkerBag(s'.apiWorkers) == QueueBag(s.apiQueue) + WorkerBag(s.apiWorkers)
    ensures Conserved(files, s')
  {
    Regroup(QueueBag(s.apiQueue), WorkerBag(s.apiWorkers), QueueBag(s'.apiQueue), WorkerBag(s'.apiWorkers),
            QueueBag(s.verifyQueue) + Bag(s.processed));
  }

  /** The state after worker `w` of the API stage puts `t'` on the verifier's queue. */
  function AfterUpload(s: State, w: nat, t': FileTask): State
    requires w < |s.apiWorkers|
  {
    s.(apiWorkers := s.apiWorkers[w := Waiting], verifyQueue := s.verifyQueue + [Task(t')])
  }

  /** The API step on a copied record succeeds. */
  lemma ApiUploadNext(s: State, w: nat)
    requires Enabled(s, ApiUpload(w)) && Copied(s.apiWorkers[w].task)
    ensures ApiStage(s.apiWorkers[w].task).Some?
    ensures var t' := ApiStage(s.apiWorkers[w].task).value;
      && Uploaded(t') && Origin(t') == Origin(s.apiWorkers[w].task)
      && Next(s, ApiUpload(w)) == AfterUpload(s, w, t')
  {
    ApiStageOutput(s.apiWorkers[w].task);
  }

  lemma ApiUploadFlow(s: State, w: nat, t': FileTask)
    requires Shape(s) && Flow(s) && w < |s.apiWorkers| && s.apiWorkers[w].Holding?
    ensures Shape(AfterUpload(s, w, t')) && Flow(AfterUpload(s, w, t'))
    ensures Measure(AfterUpload(s, w, t')) + 1 == Measure(s)
  {
    var s' := AfterUpload(s, w, t');
    SameMain(s, s');
    WorkerWaitingNotAllStopped(s.apiWorkers, w);
    assert Phase(s.main) < 5 && VerifySent(s) == 0;
    Release(s.apiQueue, s.apiWorkers, ApiSent(s), w);
    PutTask(s.verifyQueue, [s.verifier], t');
    assert S3Sent(s') == S3Sent(s) && ApiSent(s') == ApiSent(s) && VerifySent(s') == 0;
    assert Shape(s');
  }

  lemma ApiUploadRecords(s: State, w: nat, t': FileTask)
    requires Records(s) && w < |s.apiWorkers| && Uploaded(t')
    ensures Records(AfterUpload(s, w, t'))
  {
    QueueAllAppend(s.verifyQueue, Task(t'), Uploaded);
    HeldAllUpdate(s.apiWorkers, w, Waiting, Copied);
  }

  lemma ApiUploadConserved(files: seq<FileTask>, s: State, w: nat, t': FileTask)
    requires Conserved(files, s) && w < |s.apiWorkers| && s.apiWorkers[w].Holding?
    requires Origin(t') == Origin(s.apiWorkers[w].task)
    ensures Conserved(files, AfterUpload(s, w, t'))
  {
    var s' := AfterUpload(s, w, t');
    WorkerBagUpdate(s.apiWorkers, w, Waiting);
    QueueAppend(s.verifyQueue, Task(t'));
    Shift(WorkerBag(s.apiWorkers), QueueBag(s.verifyQueue), WorkerBag(s'.apiWorkers), QueueBag(s'.verifyQueue), Origin(t'));
    Regroup(WorkerBag(s.apiWorkers), QueueBag(s.verifyQueue), WorkerBag(s'.apiWorkers), QueueBag(s'.verifyQueue),
            Bag(s.processed));
  }

  lemma ApiUploadStep(files: seq<FileTask>, s: State, w: nat)
    requires Inv(files, s) && Enabled(s, ApiUpload(w))
    ensures Inv(files, Next(s, ApiUpload(w))) && Measure(Next(s, ApiUpload(w))) + 1 == Measure(s)
  {
    ApiUploadNext(s, w);
    var t' := ApiStage(s.apiWorkers[w].task).value;
    ApiUploadFlow(s, w, t');
    ApiUploadRecords(s, w, t');
    ApiUploadConserved(files, s, w, t');
  }

  lemma VerifyFlow(s: State)
    requires Shape(s) && Flow(s) && Enabled(s, Verify)
    ensures Shape(Next(s, Verify)) && Flow(Next(s, Verify))
    ensures Measure(Next(s, Verify)) + 1 == Measure(s)
  {
    var q := s.verifyQueue;
    SameMain(s, Next(s, Verify));
    if q[0].Done? {
      assert [s.verifier][0 := TakeEntry(q[0])] == [Stopped];
      Take(q, [s.verifier], VerifySent(s), 0);
    } else {
      DropTask(q, [s.verifier], VerifySent(s));
    }
  }

  lemma VerifyRecords(s: State)
    requires Records(s) && Enabled(s, Verify)
    ensures Records(Next(s, Verify))
  {
    var q := s.verifyQueue;
    QueueAllTail(q, Uploaded);
    if q[0].Task? {
      ListAllAppend(s.processed, q[0].task, Uploaded);
    }
  }

  lemma VerifyConserved(files: seq<FileTask>, s: State)
    requires Conserved(files, s) && Enabled(s, Verify)
    ensures Conserved(files, Next(s, Verify))
  {
    var q := s.verifyQueue;
    var s' := Next(s, Verify);
    assert QueueBag(q) == ItemBag(q[0]) + QueueBag(q[1..]);
    if q[0].Done? {
      assert QueueBag(q) == QueueBag(q[1..]) + multiset{};
    } else {
      var t := q[0].task;
      BagAppend(s.processed, t);
      Shift(QueueBag(q), Bag(s.processed), QueueBag(q[1..]), Bag(s'.processed), Origin(t));
    }
  }

  lemma MainStepEarly(s: State)
    requires Shape(s) && Flow(s) && Enabled(s, MainStep) && Phase(s.main) < 3
    ensures Shape(Next(s, MainStep)) && Flow(Next(s, MainStep))
    ensures Measure(Next(s, MainStep)) + 1 == Measure(s)
  {
    if s.main.SendS3Done? {
      MainStepS3Done(s);
    }
  }

  lemma MainStepS3Done(s: State)
    requires Shape(s) && Flow(s) && s.main.SendS3Done?
    ensures Shape(Next(s, MainStep)) && Flow(Next(s, MainStep))
    ensures Measure(Next(s, MainStep)) + 1 == Measure(s)
  {
    if s.main.left > 0 {
      PutDone(s.s3Queue, s.s3Workers, S3Sent(s));
    }
  }

  lemma MainStepLate(s: State)
    requires Shape(s) && Flow(s) && Enabled(s, MainStep) && Phase(s.main) >= 3
    ensures Shape(Next(s, MainStep)) && Flow(Next(s, MainStep))
    ensures Measure(Next(s, MainStep)) + 1 == Measure(s)
  {
    if s.main.SendApiDone? {
      MainStepApiDone(s);
    } else {
      MainStepVerifier(s);
    }
  }

  lemma MainStepApiDone(s: State)
    requires Shape(s) && Flow(s) && s.main.SendApiDone?
    ensures Shape(Next(s, MainStep)) && Flow(Next(s, MainStep))
    ensures Measure(Next(s, MainStep)) + 1 == Measure(s)
  {
    if s.main.left > 0 {
      PutDone(s.apiQueue, s.apiWorkers, ApiSent(s));
    }
  }

  lemma MainStepVerifier(s: State)
    requires Shape(s) && Flow(s) && Enabled(s, MainStep) && Phase(s.main) >= 4
    ensures Shape(Next(s, MainStep)) && Flow(Next(s, MainStep))
    ensures Measure(Next(s, MainStep)) + 1 == Measure(s)
  {
    if s.main.SendVerifyDone? {
      MainStepVerifyDone(s);
    }
  }

  lemma MainStepVerifyDone(s: State)
    requires Shape(s) && Flow(s) && s.main.SendVerifyDone?
    ensures Shape(Next(s, MainStep)) && Flow(Next(s, MainStep))
    ensures Measure(Next(s, MainStep)) + 1 == Measure(s)
  {
    PutDone(s.verifyQueue, [s.verifier], VerifySent(s));
  }

  /** The main thread's steps move no record. */
  lemma MainStepRecords(s: State)
    requires Records(s) && Enabled(s, MainStep)
    ensures Records(Next(s, MainStep))
  {
    match s.main
    case SendApiDone(left) =>
      QueueAllAppend(s.apiQueue, Done, Copied);
    case SendVerifyDone =>
      QueueAllAppend(s.verifyQueue, Done, Uploaded);
    case _ =>
  }

  lemma MainStepBags(s: State)
    requires Enabled(s, MainStep)
    ensures var s' := Next(s, MainStep);
      && s'.pending == s.pending && s'.processed == s.processed
      && s'.s3Workers == s.s3Workers && s'.apiWorkers == s.apiWorkers
      && QueueBag(s'.s3Queue) == QueueBag(s.s3Queue)
      && QueueBag(s'.apiQueue) == QueueBag(s.apiQueue)
      && QueueBag(s'.verifyQueue) == QueueBag(s.verifyQueue)
  {
    var s' := Next(s, MainStep);
    if s'.s3Queue != s.s3Queue {
      assert s.main.SendS3Done? && s'.s3Queue == s.s3Queue + [Done];
      QueueAppendDone(s.s3Queue);
    }
    if s'.apiQueue != s.apiQueue {
      assert s.main.SendApiDone? && s'.apiQueue == s.apiQueue + [Done];
      QueueAppendDone(s.apiQueue);
    }
    if s'.verifyQueue != s.verifyQueue {
      assert s.main.SendVerifyDone? && s'.verifyQueue == s.verifyQueue + [Done];
      QueueAppendDone(s.verifyQueue);
    }
  }

  lemma MainStepConserved(files: seq<FileTask>, s: State)
    requires Conserved(files, s) && Enabled(s, MainStep)
    ensures Conserved(files, Next(s, MainStep))
  {
    MainStepBags(s);
    assert Total(Next(s, MainStep)) == Total(s);
  }

  lemma DispatchStep(files: seq<FileTask>, s: State)
    requires Inv(files, s) && Enabled(s, Dispatch)
    ensures Inv(files, Next(s, Dispatch)) && Measure(Next(s, Dispatch)) + 1 == Measure(s)
  {
    DispatchFlow(s);
    DispatchConserved(files, s);
  }

  lemma S3TakeStep(files: seq<FileTask>, s: State, w: nat)
    requires Inv(files, s) && Enabled(s, S3Take(w))
    ensures Inv(files, Next(s, S3Take(w))) && Measure(Next(s, S3Take(w))) + 1 == Measure(s)
  {
    S3TakeFlow(s, w);
    S3TakeConserved(files, s, Next(s, S3Take(w)));
  }

  lemma ApiTakeStep(files: seq<FileTask>, s: State, w: nat)
    requires Inv(files, s) && Enabled(s, ApiTake(w))
    ensures Inv(files, Next(s, ApiTake(w))) && Measure(Next(s, ApiTake(w))) + 1 == Measure(s)
  {
    ApiTakeFlow(s, w);
    ApiTakeRecords(s, w);
    ApiTakeConserved(files, s, Next(s, ApiTake(w)));
  }

  lemma VerifyStep(files: seq<FileTask>, s: State)
    requires Inv(files, s) && Enabled(s, Verify)
    ensures Inv(files, Next(s, Verify)) && Measure(Next(s, Verify)) + 1 == Measure(s)
  {
    VerifyFlow(s);
    VerifyRecords(s);
    VerifyConserved(files, s);
  }

  lemma MainStepStep(files: seq<FileTask>, s: State)
    requires Inv(files, s) && Enabled(s, MainStep)
    ensures Inv(files, Next(s, MainStep)) && Measure(Next(s, MainStep)) + 1 == Measure(s)
  {
    if Phase(s.main) < 3 {
      MainStepEarly(s);
    } else {
      MainStepLate(s);
    }
    MainStepRecords(s);
    MainStepConserved(files, s);
  }

  /** Every enabled action keeps the invariant and lowers the measure by exactly one. */
  lemma Step(files: seq<FileTask>, s: State, a: Action)
    requires Inv(files, s) && Enabled(s, a)
    ensures Inv(files, Next(s, a)) && Measure(Next(s, a)) + 1 == Measure(s)
  {
    if a.Dispatch? || a.S3Take? || a.S3Copy? {
      FeedStep(files, s, a);
    } else {
      DrainStep(files, s, a);
    }
  }

  /** The dispatcher and the copy workers. */
  lemma FeedStep(files: seq<FileTask>, s: State, a: Action)
    requires Inv(files, s) && Enabled(s, a) && (a.Dispatch? || a.S3Take? || a.S3Copy?)
    ensures Inv(files, Next(s, a)) && Measure(Next(s, a)) + 1 == Measure(s)
  {
    match a
    case Dispatch => DispatchStep(files, s);
    case S3Take(w) => S3TakeStep(files, s, w);
    case S3Copy(w, clock, id) => S3CopyStep(files, s, w, clock, id);
  }

  /** The API workers, the verifier and the main thread. */
  lemma DrainStep(files: seq<FileTask>, s: State, a: Action)
    requires Inv(files, s) && Enabled(s, a) && !(a.Dispatch? || a.S3Take? || a.S3Copy?)
    ensures Inv(files, Next(s, a)) && Measure(Next(s, a)) + 1 == Measure(s)
  {
    match a
    case ApiTake(w) => ApiTakeStep(files, s, w);
    case ApiUpload(w) => ApiUploadStep(files, s, w);
    case Verify => VerifyStep(files, s);
    case MainStep => MainStepStep(files, s);
  }
}
