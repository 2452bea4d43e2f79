/** File records and the two per-task stage steps: the store-to-store copy
    (`s3_uploader`'s body) and the metadata upload (`api_uploader`'s body). */
module Tasks {
  import opened Wrappers
  import Uuids
  import Timestamps
  import opened DestKey

  const S3Copied: string := "S3_COPIED"
  const ApiUploaded: string := "API_UPLOADED"

  /** One file record. The Python code keeps it as a dict; `uploadId` starts as the
      empty string and later holds the `UUID` object the API stage returns. */
  datatype FileTask = FileTask(
    id: int,
    name: string,
    srcBucket: string,
    srcKey: string,
    destBucket: string,
    destKey: string,
    meta: map<string, string>,
    uploadId: Value,
    status: string)

  /** The record with the three fields the stages write (`destKey`, `uploadId`,
      `status`) blanked: what identifies a record as it moves down the pipeline. */
  function Origin(t: FileTask): FileTask
  {
    t.(destKey := "", uploadId := Str(""), status := "")
  }

  /** After the copy stage: the key is a well-formed destination key. */
  predicate Copied(t: FileTask)
  {
    t.status == S3Copied && IsValidDestKey(Str(t.destKey))
  }

  /** After the API stage: well-formed key, and the upload id is the UUID in it. */
  predicate Uploaded(t: FileTask)
  {
    && t.status == ApiUploaded
    && IsValidDestKey(Str(t.destKey))
    && t.uploadId.UuidObj?
    && ExtractId(t.destKey) == Some(t.uploadId.u)
  }

  /** Copy stage: record the key `copy_file_s3_s3` built from this clock reading and
      UUID, and mark the record `S3_COPIED`. */
  function CopyStage(t: FileTask, clock: Timestamps.Clock, id: Uuids.Uuid): (r: FileTask)
    ensures Copied(r) && ExtractId(r.destKey) == Some(id)
    ensures Origin(r) == Origin(t) && r.uploadId == t.uploadId
  {
    CopyKeyIsValid(clock, id);
    ExtractCopyKey(clock, id);
    t.(destKey := CopyFileKey(clock, id), status := S3Copied)
  }

  /** API stage: mark the record `API_UPLOADED` and store the id read back out of its
      key. `None` is the `ValueError` that ends the worker thread when the key's last
      segment is not a UUID. */
  function ApiStage(t: FileTask): (r: Option<FileTask>)
    ensures r.Some? <==> ExtractId(t.destKey).Some?
    ensures r.Some? ==>
      && Origin(r.value) == Origin(t) && r.value.destKey == t.destKey
      && r.value.status == ApiUploaded
      && r.value.uploadId.UuidObj? && ExtractId(r.value.destKey) == Some(r.value.uploadId.u)
  {
    match ExtractId(t.destKey)
    case None => None
    case Some(u) => Some(t.(status := ApiUploaded, uploadId := UuidObj(u)))
  }

  // ---------------------------------------------------------------------

  /** The API stage succeeds on every copied record, stores the UUID of its key and
      changes nothing but the status and the upload id. */
  lemma ApiStageOutput(t: FileTask)
    requires Copied(t)
    ensures ApiStage(t).Some?
    ensures var r := ApiStage(t).value;
      Uploaded(r) && Origin(r) == Origin(t) && r.destKey == t.destKey
  {
    ValidKeyExtracts(t.destKey);
  }

  /** The registration id is not minted by the API stage: it is the UUID the copy
      stage generated. */
  lemma StagesCompose(t: FileTask, clock: Timestamps.Clock, id: Uuids.Uuid)
    ensures ApiStage(CopyStage(t, clock, id))
         == Some(t.(destKey := CopyFileKey(clock, id), status := ApiUploaded, uploadId := UuidObj(id)))
  {
    ExtractCopyKey(clock, id);
  }

  /** What the end-to-end test asserts of every record that reaches the verifier. */
  lemma UploadedMeetsTest(t: FileTask)
    requires Uploaded(t)
    ensures t.status == "API_UPLOADED"
    ensures t.destKey != "" && IsValidDestKey(Str(t.destKey))
    ensures t.uploadId != Str("") && IsValidUuid(t.uploadId)
  {
  }
}
