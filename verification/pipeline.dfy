/** The whole pipeline as a transition system: the dispatcher thread, the pools of
    copy and API workers, the verifier thread, and the main thread's shutdown
    sequence (join a stage, then put one sentinel per worker of the next stage).
    Every thread's progress is one atomic action; a schedule is any sequence of
    enabled actions, so every interleaving the threads allow is covered. */
module Pipeline {
  import opened Wrappers
  import Timestamps
  import Uuids
  import opened Tasks
  import opened Queues

  /** Where a worker thread is in its `while True` loop. `Holding` is between the
      `get()` of a record and the `put()` of the processed record; `Dead` is a thread
      an exception ended. */
  datatype WorkerState = Waiting | Holding(task: FileTask) | Stopped | Dead

  /** The main thread's place in the shutdown sequence. `left` counts the sentinels
      still to be put for the stage. */
  datatype Coordinator =
    | JoinDispatcher
    | SendS3Done(left: nat)
    | JoinS3
    | SendApiDone(left: nat)
    | JoinApi
    | SendVerifyDone
    | JoinVerifier
    | Complete

  datatype State = State(
    pending: seq<FileTask>,        // records the dispatcher has still to put
    s3Queue: seq<Item>,
    apiQueue: seq<Item>,
    verifyQueue: seq<Item>,
    s3Workers: seq<WorkerState>,
    apiWorkers: seq<WorkerState>,
    verifier: WorkerState,
    processed: seq<FileTask>,      // the verifier's `processed` list
    main: Coordinator)

  /** All threads started, all queues empty. */
  function Init(files: seq<FileTask>, s3Count: nat, apiCount: nat): (s: State)
    ensures |s.s3Workers| == s3Count && |s.apiWorkers| == apiCount
    ensures forall w :: 0 <= w < s3Count ==> s.s3Workers[w] == Waiting
    ensures forall w :: 0 <= w < apiCount ==> s.apiWorkers[w] == Waiting
    ensures forall a :: Enabled(s, a) ==> a == Dispatch || (a == MainStep && files == [])
  {
    State(files, [], [], [], seq(s3Count, _ => Waiting), seq(apiCount, _ => Waiting),
          Waiting, [], JoinDispatcher)
  }

  /** One step of one thread. The copy step carries the clock reading and the UUID
      that `copy_file_s3_s3` sees. */
  datatype Action =
    | Dispatch
    | S3Take(w: nat)
    | S3Copy(w: nat, clock: Timestamps.Clock, id: Uuids.Uuid)
    | ApiTake(w: nat)
    | ApiUpload(w: nat)
    | Verify
    | MainStep

  /** `thread.join()` returns once the thread has ended, by a sentinel or an exception. */
  predicate Ended(w: WorkerState)
  {
    w.Stopped? || w.Dead?
  }

  predicate AllEnded(ws: seq<WorkerState>)
  {
    forall w :: 0 <= w < |ws| ==> Ended(ws[w])
  }

  /** Whether the action can happen now: `get()` blocks on an empty queue, a join
      blocks on a running thread, and an ended thread takes no step. */
  predicate Enabled(s: State, a: Action)
    ensures Enabled(s, a) && (a.S3Take? || a.S3Copy?) ==> a.w < |s.s3Workers| && !Ended(s.s3Workers[a.w])
    ensures Enabled(s, a) && (a.ApiTake? || a.ApiUpload?) ==> a.w < |s.apiWorkers| && !Ended(s.apiWorkers[a.w])
    ensures Enabled(s, a) && a.Verify? ==> !Ended(s.verifier)
    ensures Enabled(s, a) && a.MainStep? ==> !s.main.Complete?
  {
    match a
    case Dispatch => |s.pending| > 0
    case S3Take(w) => w < |s.s3Workers| && s.s3Workers[w].Waiting? && |s.s3Queue| > 0
    case S3Copy(w, _, _) => w < |s.s3Workers| && s.s3Workers[w].Holding?
    case ApiTake(w) => w < |s.apiWorkers| && s.apiWorkers[w].Waiting? && |s.apiQueue| > 0
    case ApiUpload(w) => w < |s.apiWorkers| && s.apiWorkers[w].Holding?
    case Verify => s.verifier.Waiting? && |s.verifyQueue| > 0
    case MainStep =>
      match s.main
      case JoinDispatcher => |s.pending| == 0
      case SendS3Done(_) => true
      case JoinS3 => AllEnded(s.s3Workers)
      case SendApiDone(_) => true
      case JoinApi => AllEnded(s.apiWorkers)
      case SendVerifyDone => true
      case JoinVerifier => Ended(s.verifier)
      case Complete => false
  }

  /** What a worker becomes when it takes `x` off its queue. */
  function TakeEntry(x: Item): WorkerState
  {
    match x
    case Task(t) => Holding(t)
    case Done => Stopped
  }

  function Next(s: State, a: Action): (r: State)
    requires Enabled(s, a)
    ensures |r.s3Workers| == |s.s3Workers| && |r.apiWorkers| == |s.apiWorkers|
    ensures s.processed <= r.processed && |r.processed| <= |s.processed| + 1
    ensures !a.MainStep? ==> r.main == s.main
  {
    match a
    case Dispatch =>
      s.(pending := s.pending[1..], s3Queue := s.s3Queue + [Task(s.pending[0])])
    case S3Take(w) =>
      s.(s3Workers := s.s3Workers[w := TakeEntry(s.s3Queue[0])], s3Queue := s.s3Queue[1..])
    case S3Copy(w, clock, id) =>
      s.(s3Workers := s.s3Workers[w := Waiting],
         apiQueue := s.apiQueue + [Task(CopyStage(s.s3Workers[w].task, clock, id))])
    case ApiTake(w) =>
      s.(apiWorkers := s.apiWorkers[w := TakeEntry(s.apiQueue[0])], apiQueue := s.apiQueue[1..])
    case ApiUpload(w) =>
      (match ApiStage(s.apiWorkers[w].task)
       case Some(t) => s.(apiWorkers := s.apiWorkers[w := Waiting], verifyQueue := s.verifyQueue + [Task(t)])
       case None => s.(apiWorkers := s.apiWorkers[w := Dead]))
    case Verify =>
      (match s.verifyQueue[0]
       case Done => s.(verifier := Stopped, verifyQueue := s.verifyQueue[1..])
       case Task(t) => s.(processed := s.processed + [t], verifyQueue := s.verifyQueue[1..]))
    case MainStep =>
      match s.main
      case JoinDispatcher => s.(main := SendS3Done(|s.s3Workers|))
      case SendS3Done(left) =>
        if left == 0 then s.(main := JoinS3)
        else s.(s3Queue := s.s3Queue + [Done], main := SendS3Done(left - 1))
      case JoinS3 => s.(main := SendApiDone(|s.apiWorkers|))
      case SendApiDone(left) =>
        if left == 0 then s.(main := JoinApi)
        else s.(apiQueue := s.apiQueue + [Done], main := SendApiDone(left - 1))
      case JoinApi => s.(main := SendVerifyDone)
      case SendVerifyDone => s.(verifyQueue := s.verifyQueue + [Done], main := JoinVerifier)
      case JoinVerifier => s.(main := Complete)
  }

  /** A schedule every step of which is enabled when it is taken. */
  predicate ValidRun(s: State, acts: seq<Action>)
    decreases |acts|
  {
    |acts| == 0 || (Enabled(s, acts[0]) && ValidRun(Next(s, acts[0]), acts[1..]))
  }

  /** The state a valid schedule ends in. */
  function Run(s: State, acts: seq<Action>): State
    requires ValidRun(s, acts)
    decreases |acts|
  {
    if |acts| == 0 then s else Run(Next(s, acts[0]), acts[1..])
  }
}
