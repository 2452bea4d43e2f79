# Poison-pill pipeline, modelled in Dafny

The system is a three-stage thread pipeline over a list of file records. A
dispatcher thread puts every record on the copy queue. A pool of copy workers
("S3 uploaders") takes each record, builds a destination key
`YYYY/MM/DD/HH/MM/SS/<uuid4>` and forwards the record, marked `S3_COPIED`, to the
API queue. A pool of API workers reads the UUID back out of the key, stores it as
the upload id, marks the record `API_UPLOADED` and forwards it to a verifier thread.
The verifier collects the records and prints a count report. The main thread stops
the pipeline with poison pills. It joins the dispatcher, puts one `DONE` sentinel
per copy worker, and joins the copy workers. It then does the same for the API
workers, and finally puts one sentinel for the verifier and joins it.

The model has four layers.

- **Key codec** (`Text`, `Uuids`, `Timestamps`, `DestKey`):
  - Python's `str.split`/`str.join`/`rsplit`;
  - `UUID(str)` parsing and `str(UUID)` formatting;
  - `strftime`/`strptime` on `%Y/%m/%d/%H/%M/%S`;
  - the key the copy stage builds and how the API stage reads it back;
  - the tests' `__is_valid_uuid` and `__is_valid_s3_dest_key` checks.
- **Stages and report** (`Tasks`, `Report`): the per-record work of each worker
  loop, and the verifier's report counts.
- **Queues** (`Queues`): the dispatcher loop, the sentinel puts, and one worker
  loop that stops at the first sentinel.
- **Whole pipeline** (`Pipeline`, `PipelineCounts`, `Stages`,
  `PipelineInvariant`, `PipelineTheorems`): a transition system in which every
  thread's progress is an atomic action and a schedule is any sequence of enabled
  actions. For every number of records and every pool size of at least one it
  proves:
  - every schedule ends after exactly `6n + 2k1 + 2k2 + 8` steps;
  - it never gets stuck before then;
  - at the end every queue is empty and every worker has stopped;
  - the verifier holds each dispatched record exactly once (as a multiset of
    origins), each uploaded with the UUID of its own key;
  - the report is clean.

The wall clock and `uuid4()` are inputs: each copy step carries the clock reading
and the UUID it uses.

## Model

| member | source | states |
|---|---|---|
| Text.Split | test_pipeline.py:155 | `str.split` on one separator yields at least one piece and no piece contains the separator |
| Text.JoinSplit | test_pipeline.py:155-160 | joining the pieces of a split with the same separator gives back the original string |
| Text.SplitJoin | test_pipeline.py:155-160 | splitting a join of separator-free pieces gives back exactly those pieces |
| Text.AfterLast | main.py:154 | `rsplit(sep, 1)[-1]` is a separator-free suffix of the string |
| Text.AfterLastIsLastPiece | main.py:154 | `rsplit(sep, 1)[-1]` equals the last piece of `split(sep)` |
| Text.AfterLastOfPieces | main.py:154 | after `a + sep + b` with separator-free `b`, the last segment is exactly `b` |
| Text.RemoveChar | main.py:154 | removing a character leaves every other character and no occurrence of it |
| Text.RemoveCharAppend | main.py:154 | removing a character distributes over concatenation |
| Text.StripEnclosed | main.py:154 | stripping braces from a braced string whose ends are not braces returns the inner string |
| Uuids.Format | main.py:143 | `str(UUID)` is the canonical 8-4-4-4-12 lower-case hex text |
| Uuids.Parse | main.py:154 | `UUID(text)` succeeds exactly when the text, after dropping `urn:`, `uuid:`, braces and hyphens, is 32 hex digits, and then the UUID's 32 digits are those digits in lower case |
| Uuids.ParseFormat | main.py:143-154 | parsing the printed form of a UUID gives the same UUID |
| Uuids.CanonicalRoundTrip | test_pipeline.py:56-65 | any canonical UUID text parses, and printing the result gives the same text |
| Uuids.ParseBraced | test_pipeline.py:142 | the braced form `{…}` of a printed UUID parses to the same UUID |
| Timestamps.Fields | main.py:142 | `strftime("%Y/%m/%d/%H/%M/%S")` yields six all-digit, slash-free fields |
| Timestamps.ParseFields | test_pipeline.py:162 | a field list `strptime` accepts denotes a real calendar date and time |
| Timestamps.Format | main.py:142 | the `strftime` text splits at `/` into exactly the six printed fields, and `strptime` of it gives back the same clock reading |
| Timestamps.Parse | test_pipeline.py:162 | a text `strptime` accepts has six slash-separated fields and denotes a real calendar date and time |
| Timestamps.Pad2Value | main.py:142 | a two-digit zero-padded field reads back as its number |
| Timestamps.Pad4Value | main.py:142 | a four-digit zero-padded year reads back as its number |
| Timestamps.TruncateMonotone | test_pipeline.py:44 | `replace(microsecond=0)` keeps the order of two `datetime.now()` values |
| DestKey.CopyFileKey | main.py:142-143 | the built key splits into the six timestamp fields followed by the UUID text |
| DestKey.CopyKeySegments | test_pipeline.py:36-41 | a built key has seven segments, its first six join to a timestamp that parses back to the clock reading, and the seventh parses to the UUID |
| DestKey.ExtractId | main.py:150-155 | when `UUID(key.rsplit("/", 1)[-1])` succeeds, the UUID's digits are the last segment's hex digits in lower case, with prefixes, braces and hyphens dropped |
| DestKey.IsValidUuid | test_pipeline.py:137-145 | the `isinstance(value, UUID)` shortcut changes no answer: a value passes exactly when its `str()` text parses as a UUID |
| DestKey.IsValidDestKey | test_pipeline.py:148-167 | every value the key check accepts is a `str` from which `upload_file_to_api` reads a UUID without raising |
| DestKey.ExtractCopyKey | main.py:154 | the API stage reads back exactly the UUID the copy stage put in the key |
| DestKey.CopyKeyInjective | main.py:142-143 | two keys are equal only when they were built from the same clock reading and UUID |
| DestKey.ExtractCanonicalId | test_pipeline.py:56-65 | for any key ending in `/` plus a canonical UUID text, the extracted UUID prints as that text |
| DestKey.IsValidUuidCases | test_pipeline.py:137-145 | the UUID check accepts every `UUID` object, and any other value exactly when its `str()` parses |
| DestKey.NonStringKeyInvalid | test_pipeline.py:152-153 | no non-`str` value passes the key check |
| DestKey.ComposedKeyIsValid | test_pipeline.py:148-167 | a parseable timestamp, a slash and a slash-free UUID text make a valid key |
| DestKey.ValidKeyDecomposes | test_pipeline.py:148-167 | every valid key is a parseable timestamp, a slash and a slash-free UUID text (the converse of `ComposedKeyIsValid`) |
| DestKey.CopyKeyIsValid | test_pipeline.py:19-48 | every key the copy stage builds passes the tests' key check |
| DestKey.ValidKeyExtracts | main.py:154 | the API stage's UUID read succeeds on every key that passes the check |
| DestKey.CopyKeyTimeWithinRun | test_pipeline.py:28-44 | the timestamp of a key built between two `now()` readings lies between them once both are truncated to whole seconds |
| Tasks.ApiStage | main.py:94-95 | on any record, the API step succeeds exactly when the key's last segment parses as a UUID; when it does, it sets `API_UPLOADED`, keeps the key and every other field, and the upload id is the UUID the key carries |
| Tasks.CopyStage | main.py:72-76 | the copy step leaves a key that passes the tests' key check and carries its UUID, status `S3_COPIED`, and every other field unchanged |
| Tasks.ApiStageOutput | main.py:94-97 | on a copied record the API step succeeds, stores the key's UUID as upload id, sets `API_UPLOADED` and changes nothing else |
| Tasks.StagesCompose | main.py:72-95 | the upload id after both stages is the UUID the copy stage generated |
| Tasks.UploadedMeetsTest | test_pipeline.py:127-134 | an uploaded record meets each per-record assertion of the end-to-end test |
| Report.Successes | main.py:112 | the success list holds exactly the processed records with status `API_UPLOADED` |
| Report.Failures | main.py:113 | the failure list holds exactly the processed records with any other status |
| Report.Partition | main.py:112-113 | successes and failures together are the processed list as a multiset |
| Report.MakeSummary | main.py:112-122 | processed = successes + failures; the missing-files line appears exactly when the count differs from the expected one, and shows the difference |
| Report.AllSucceed | main.py:112-113 | when every record is uploaded there are no failures and every record is a success |
| Report.CleanSummary | main.py:112-122 | all expected records, all uploaded, give the report expected = processed = success, failed 0, no missing line |
| Queues.FirstDone | main.py:63-67 | position of the first sentinel: everything before it is a record |
| Queues.Dispatcher | main.py:54-57 | the dispatcher appends every record, in order, behind what was already queued |
| Queues.PutSentinels | main.py:176-185 | the shutdown loop appends exactly `k` sentinels behind what was queued |
| Queues.RunWorker | main.py:63-67 | a worker forwards records in order up to the first sentinel and stops there; it ends early exactly when a step raises, and it keeps waiting only when no sentinel is queued |
| Queues.FillStageQueue | main.py:173-177 | after the producer and the shutdown puts, the queue is the records followed by `k` sentinels |
| Queues.FirstDoneAfterRecords | main.py:173-177 | with at least one sentinel behind the records, the first sentinel comes right after the last record |
| Queues.DrainAlone | main.py:87-97 | a lone worker on a filled queue processes every record unless a step raises, then takes one sentinel and leaves the other `k-1` |
| Pipeline.Init | main.py:163-170 | once every thread has started, each worker waits on its queue: only the dispatcher can move, or, with no files, the main thread's first join |
| Pipeline.Enabled | main.py:63-67 | a thread that has broken out of its loop or raised takes no further step, and the main thread takes none once through |
| Pipeline.Next | main.py:51-193 | no step creates or ends a thread of a pool; the verifier's list only grows, by at most one record; only the main thread moves the shutdown sequence |
| PipelineCounts.Bag | main.py:102-108 | the multiset of record origins has one element per record |
| PipelineCounts.QueueAppend | main.py:57 | a `put` adds its record to the queue's multiset, and one to the sentinel count when it is a sentinel |
| PipelineCounts.QueueAppendDone | main.py:176-177 | putting a sentinel adds no record and one sentinel |
| PipelineCounts.WorkerUpdate | main.py:63-79 | changing one worker's state changes the held records and the stopped count by that worker's share only |
| PipelineCounts.StoppedCountBound | main.py:180-181 | at most one stopped worker per worker, and every worker is stopped when the count reaches the pool size |
| PipelineCounts.AllStoppedEmptyHanded | main.py:65-67 | stopped workers hold no record |
| Stages.PutTask | main.py:57 | a producer put before any sentinel keeps the stage invariant and adds one record |
| Stages.PutDone | main.py:176-177 | a sentinel put keeps the stage invariant with one more sentinel sent |
| Stages.Take | main.py:64-67 | a `get` keeps the stage invariant and moves a record from queue to worker, or a sentinel turns the worker to stopped |
| Stages.DropTask | main.py:105-108 | the verifier's `get` of a record removes it from the queue without touching the sentinels |
| Stages.Release | main.py:79 | a worker forwarding its record keeps the stage invariant and gives up exactly that record |
| Stages.Drained | main.py:180-181 | once all `k` workers have stopped after `k` sentinels, the queue is empty and no worker holds a record |
| Stages.Runnable | main.py:63-64 | a worker that has not stopped and holds nothing is waiting on a nonempty queue |
| PipelineInvariant.DispatchStep | main.py:54-57 | a dispatcher put keeps the pipeline invariant and uses up one step |
| PipelineInvariant.S3TakeStep | main.py:63-67 | a copy worker's `get` keeps the invariant and uses up one step |
| PipelineInvariant.S3CopyStep | main.py:72-79 | a copy worker's forward keeps the invariant (the forwarded record is copied, its origin unchanged) and uses up one step |
| PipelineInvariant.ApiTakeStep | main.py:87-91 | an API worker's `get` keeps the invariant and uses up one step |
| PipelineInvariant.ApiUploadNext | main.py:94-97 | on the copied record an API worker holds, the upload succeeds (the worker never dies) |
| PipelineInvariant.ApiUploadStep | main.py:94-97 | an API worker's forward keeps the invariant (the forwarded record is uploaded, its origin unchanged) and uses up one step |
| PipelineInvariant.VerifyStep | main.py:104-108 | the verifier's `get` keeps the invariant: a record joins `processed`, a sentinel stops it |
| PipelineInvariant.MainStepStep | main.py:173-193 | each step of the shutdown sequence keeps the invariant and uses up one step |
| PipelineInvariant.Step | main.py:51-193 | every enabled action of any thread keeps the invariant and lowers the remaining-step measure by exactly one |
| PipelineTheorems.InitInv | main.py:163-170 | the started pipeline meets the invariant with exactly `6n + 2k1 + 2k2 + 8` steps left |
| PipelineTheorems.Progress | main.py:173-193 | until the main thread is through, some thread can take a step: no join and no `get` blocks forever |
| PipelineTheorems.Finished | main.py:173-193 | when the main thread is through, all queues are empty, all workers are stopped, the verifier holds each record once, uploaded, and the report is clean |
| PipelineTheorems.MeasureZero | main.py:173-193 | no step is left exactly when the main thread is through |
| PipelineTheorems.RunInv | main.py:51-193 | along any valid schedule the invariant holds, and each step uses up one unit of the measure |
| PipelineTheorems.RunSnoc | main.py:51-193 | extending a valid schedule by an enabled action gives a valid schedule ending in that action's successor state |
| PipelineTheorems.EverySchedule | main.py:173-193 | every schedule is at most `6n + 2k1 + 2k2 + 8` steps long, it is through exactly when it has that length, and then every record was delivered once, uploaded |
| PipelineTheorems.NeverStuck | main.py:173-193 | any schedule that is not through can be extended by one more step |
| PipelineTheorems.SomeScheduleCompletes | main.py:163-193 | some schedule reaches the end, so the guarantees are not vacuous |
| PipelineTheorems.MainScriptReport | main.py:158-193 | with three copy and two API workers, every complete run prints a clean report with no missing files |
| PipelineTheorems.EndToEndTest | test_pipeline.py:68-134 | with one worker per stage and two records, every complete schedule leaves exactly two verified records, each meeting the test's assertions |

## Left out

- Threads, locks and `queue.Queue` internals: each thread's progress is one atomic action, and every interleaving of those actions is covered; finer-grained interleavings inside `put`/`get` are not modelled.
- `time.sleep`, `random` delays and every `print`: they do not affect what flows through the queues.
- The real store-to-store copy and the REST API call: they are pseudocode in the source; the model keeps only the key the copy builds and the UUID the upload reads back.
- The wall clock and `uuid4()`: each copy step takes the clock reading and the UUID as action parameters; randomness (and so distinct keys) is not modelled, only `DestKey.CopyKeyInjective` for keys that happen to be equal.
- The `FILES` fixture, the worker names and thread objects: the model is generic in the records and in the pool sizes.
- Pools of zero workers: every result requires at least one worker per stage, as the script and the test use.
- Timestamps.Parse: only ASCII digits are modelled; `strptime`'s `\d` and `int()` also accept other Unicode decimal digits, so `DestKey.IsValidDestKey` rejects keys with such digits in a timestamp field that `__is_valid_s3_dest_key` accepts.
- Uuids.Parse: does not model the leniency of `int(hex, 16)` beyond strict hex digits (surrounding whitespace, a sign, `0x`, underscores), nor non-ASCII digits.
- Timestamps.Fields: covers clock readings in years 1000 to 9999 only, and no leap second; other readings do not occur with `time.strftime` in practice.
- Failure routing: the verifier's report only counts failures; no retry or dead-letter path exists in the source, and none is modelled.
- The API stage writes `status` before the upload call, so a failing call leaves a mutated record behind; in the model a failing upload ends the worker (`Dead`) and the record is dropped. The invariant proves this branch never happens.
- DestKey.IsValidUuid: follows `__is_valid_uuid` in accepting any object whose `str()` parses as a UUID, given by its text; attribute errors from exotic objects are not modelled.
- The test's custom verifier (test_pipeline.py:86-92) is the model's verifier without the report; the report is not part of that test's assertions.
