/** What the poison-pill shutdown guarantees for every schedule of the threads: no
    schedule runs forever, none gets stuck before the main thread is through, and
    when the main thread is through every record has arrived at the verifier exactly
    once, uploaded, and the report is clean. */
module PipelineTheorems {
  import opened Wrappers
  import Timestamps
  import Uuids
  import opened DestKey
  import opened Tasks
  import opened Queues
  import opened Pipeline
  import opened PipelineCounts
  import opened Stages
  import opened PipelineInvariant
  import Report

  /** The end state the main script and the end-to-end test rely on. */
  predicate Delivered(files: seq<FileTask>, s: State)
  {
    && s.pending == [] && s.s3Queue == [] && s.apiQueue == [] && s.verifyQueue == []
    && AllStopped(s.s3Workers) && AllStopped(s.apiWorkers) && s.verifier == Stopped
    && Bag(s.processed) == Bag(files)
    && |s.processed| == |files|
    && (forall i :: 0 <= i < |s.processed| ==> Uploaded(s.processed[i]))
    && Report.MakeSummary(s.processed, |files|) == Report.Summary(|files|, |files|, |files|, 0, None)
  }

  /** The exact number of steps of every complete schedule. */
  function Bound(n: nat, s3Count: nat, apiCount: nat): nat
  {
    6 * n + 2 * s3Count + 2 * apiCount + 8
  }

  lemma InitInv(files: seq<FileTask>, s3Count: nat, apiCount: nat)
    requires s3Count >= 1 && apiCount >= 1
    ensures Inv(files, Init(files, s3Count, apiCount))
    ensures Measure(Init(files, s3Count, apiCount)) == Bound(|files|, s3Count, apiCount)
  {
    var s := Init(files, s3Count, apiCount);
    AllWaitingCounts(s3Count);
    AllWaitingCounts(apiCount);
    assert StoppedCount([s.verifier]) == 0 by {
      assert [s.verifier][1..] == [];
    }
    var e: multiset<FileTask> := multiset{};
    assert Total(s) == Bag(files) + (e + (e + (e + (e + (e + e)))));
    assert Bag(files) + (e + (e + (e + (e + (e + e))))) == Bag(files);
  }

  /** Until the main thread is through, some thread can always take a step. */
  lemma Progress(s: State) returns (a: Action)
    requires Shape(s) && Flow(s) && !s.main.Complete?
    ensures Enabled(s, a)
  {
    if |s.pending| > 0 {
      return Dispatch;
    }
    match s.main
    case JoinS3 =>
      if AllEnded(s.s3Workers) {
        return MainStep;
      }
      var w :| 0 <= w < |s.s3Workers| && !Ended(s.s3Workers[w]);
      if s.s3Workers[w].Holding? {
        var clock: Timestamps.Clock := Timestamps.Timestamp(1970, 1, 1, 0, 0, 0);
        var id: Uuids.Uuid := seq(32, _ => 0);
        return S3Copy(w, clock, id);
      }
      Runnable(s.s3Queue, s.s3Workers, w);
      return S3Take(w);
    case JoinApi =>
      if AllEnded(s.apiWorkers) {
        return MainStep;
      }
      var w :| 0 <= w < |s.apiWorkers| && !Ended(s.apiWorkers[w]);
      if s.apiWorkers[w].Holding? {
        return ApiUpload(w);
      }
      Runnable(s.apiQueue, s.apiWorkers, w);
      return ApiTake(w);
    case JoinVerifier =>
      if Ended(s.verifier) {
        return MainStep;
      }
      Runnable(s.verifyQueue, [s.verifier], 0);
      return Verify;
    case _ =>
      return MainStep;
  }

  /** When the main thread is through, every queue is empty and every worker stopped
      empty-handed. */
  lemma FinishedFlow(s: State)
    requires Shape(s) && Flow(s) && s.main.Complete?
    ensures s.pending == [] && s.s3Queue == [] && s.apiQueue == [] && s.verifyQueue == []
    ensures AllStopped(s.s3Workers) && AllStopped(s.apiWorkers) && s.verifier == Stopped
    ensures WorkerBag(s.s3Workers) == multiset{} && WorkerBag(s.apiWorkers) == multiset{}
  {
    Drained(s.s3Queue, s.s3Workers);
    Drained(s.apiQueue, s.apiWorkers);
    Drained(s.verifyQueue, [s.verifier]);
  }

  /** ... so the verifier holds each record once. */
  lemma FinishedBag(files: seq<FileTask>, s: State)
    requires Conserved(files, s)
    requires s.pending == [] && s.s3Queue == [] && s.apiQueue == [] && s.verifyQueue == []
    requires WorkerBag(s.s3Workers) == multiset{} && WorkerBag(s.apiWorkers) == multiset{}
    ensures Bag(s.processed) == Bag(files) && |s.processed| == |files|
  {
    var e: multiset<FileTask> := multiset{};
    assert Total(s) == e + (e + (e + (e + (e + (e + Bag(s.processed))))));
    assert e + (e + (e + (e + (e + (e + Bag(s.processed)))))) == Bag(s.processed);
  }

  /** When the main thread is through, every queue is empty, every worker stopped, and
      the verifier holds each record once, uploaded: the report is clean. */
  lemma Finished(files: seq<FileTask>, s: State)
    requires Inv(files, s) && s.main.Complete?
    ensures Delivered(files, s)
  {
    FinishedFlow(s);
    FinishedBag(files, s);
    assert ListAll(s.processed, Uploaded);
    Report.CleanSummary(s.processed, |files|);
  }

  /** No step is left exactly when the main thread is through. */
  lemma MeasureZero(s: State)
    requires Shape(s) && Flow(s)
    ensures Measure(s) == 0 <==> s.main.Complete?
  {
    if s.main.Complete? {
      FinishedFlow(s);
    }
  }

  // ---------------------------------------------------------------------
  // Schedules

  lemma {:induction false} RunInv(files: seq<FileTask>, s: State, acts: seq<Action>)
    requires Inv(files, s) && ValidRun(s, acts)
    ensures Inv(files, Run(s, acts)) && Measure(Run(s, acts)) + |acts| == Measure(s)
    decreases |acts|
  {
    if |acts| > 0 {
      Step(files, s, acts[0]);
      RunInv(files, Next(s, acts[0]), acts[1..]);
    }
  }

  lemma {:induction false} RunSnoc(s: State, acts: seq<Action>, a: Action)
    requires ValidRun(s, acts) && Enabled(Run(s, acts), a)
    ensures ValidRun(s, acts + [a]) && Run(s, acts + [a]) == Next(Run(s, acts), a)
    decreases |acts|
  {
    if |acts| == 0 {
      assert acts + [a] == [a];
      assert [a][1..] == [];
    } else {
      assert (acts + [a])[0] == acts[0];
      assert (acts + [a])[1..] == acts[1..] + [a];
      RunSnoc(Next(s, acts[0]), acts[1..], a);
    }
  }

  /** Every schedule from the start is at most `Bound` steps long, it has reached the
      end of the main thread exactly when it is that long, and then every record has
      been delivered. */
  lemma EverySchedule(files: seq<FileTask>, s3Count: nat, apiCount: nat, acts: seq<Action>)
    requires s3Count >= 1 && apiCount >= 1
    requires ValidRun(Init(files, s3Count, apiCount), acts)
    ensures |acts| <= Bound(|files|, s3Count, apiCount)
    ensures Run(Init(files, s3Count, apiCount), acts).main.Complete?
            <==> |acts| == Bound(|files|, s3Count, apiCount)
    ensures Run(Init(files, s3Count, apiCount), acts).main.Complete?
            ==> Delivered(files, Run(Init(files, s3Count, apiCount), acts))
  {
    var s0 := Init(files, s3Count, apiCount);
    InitInv(files, s3Count, apiCount);
    RunInv(files, s0, acts);
    var s := Run(s0, acts);
    MeasureZero(s);
    if s.main.Complete? {
      Finished(files, s);
    }
  }

  /** A schedule that has not reached the end can always be extended. */
  lemma NeverStuck(files: seq<FileTask>, s3Count: nat, apiCount: nat, acts: seq<Action>)
    returns (a: Action)
    requires s3Count >= 1 && apiCount >= 1
    requires ValidRun(Init(files, s3Count, apiCount), acts)
    requires !Run(Init(files, s3Count, apiCount), acts).main.Complete?
    ensures ValidRun(Init(files, s3Count, apiCount), acts + [a])
  {
    var s0 := Init(files, s3Count, apiCount);
    InitInv(files, s3Count, apiCount);
    RunInv(files, s0, acts);
    a := Progress(Run(s0, acts));
    RunSnoc(s0, acts, a);
  }

  /** Some schedule reaches the end (so the guarantees above are not vacuous). */
  lemma SomeScheduleCompletes(files: seq<FileTask>, s3Count: nat, apiCount: nat)
    returns (acts: seq<Action>)
    requires s3Count >= 1 && apiCount >= 1
    ensures ValidRun(Init(files, s3Count, apiCount), acts)
    ensures Run(Init(files, s3Count, apiCount), acts).main.Complete?
  {
    var s0 := Init(files, s3Count, apiCount);
    acts := [];
    EverySchedule(files, s3Count, apiCount, acts);
    while !Run(s0, acts).main.Complete?
      invariant ValidRun(s0, acts)
      invariant |acts| <= Bound(|files|, s3Count, apiCount)
      decreases Bound(|files|, s3Count, apiCount) - |acts|
    {
      var a := NeverStuck(files, s3Count, apiCount, acts);
      acts := acts + [a];
      EverySchedule(files, s3Count, apiCount, acts);
    }
  }

  /** The main script: three copy workers, two API workers; the report it prints at
      the end shows every file processed and uploaded, and no missing-files warning. */
  lemma MainScriptReport(files: seq<FileTask>, acts: seq<Action>)
    requires ValidRun(Init(files, 3, 2), acts) && Run(Init(files, 3, 2), acts).main.Complete?
    ensures var ps := Run(Init(files, 3, 2), acts).processed;
      Report.MakeSummary(ps, |files|) == Report.Summary(|files|, |files|, |files|, 0, None)
  {
    EverySchedule(files, 3, 2, acts);
  }

  /** The end-to-end test: two files, one worker per stage. Whatever the schedule,
      once the shutdown sequence is through the verifier has both records, each with
      the status, key and upload id the test checks. */
  lemma EndToEndTest(files: seq<FileTask>, acts: seq<Action>)
    requires |files| == 2
    requires ValidRun(Init(files, 1, 1), acts) && Run(Init(files, 1, 1), acts).main.Complete?
    ensures var ps := Run(Init(files, 1, 1), acts).processed;
      && |ps| == 2
      && forall i :: 0 <= i < |ps| ==>
        && ps[i].status == "API_UPLOADED"
        && ps[i].destKey != "" && IsValidDestKey(Str(ps[i].destKey))
        && ps[i].uploadId != Str("") && IsValidUuid(ps[i].uploadId)
  {
    EverySchedule(files, 1, 1, acts);
    var ps := Run(Init(files, 1, 1), acts).processed;
    forall i | 0 <= i < |ps|
      ensures ps[i].status == "API_UPLOADED"
      ensures ps[i].destKey != "" && IsValidDestKey(Str(ps[i].destKey))
      ensures ps[i].uploadId != Str("") && IsValidUuid(ps[i].uploadId)
    {
      UploadedMeetsTest(ps[i]);
    }
  }
}
