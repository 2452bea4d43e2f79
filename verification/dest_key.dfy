/** The destination key `copy_file_s3_s3` builds (`<timestamp>/<uuid>`), the id
    `upload_file_to_api` reads back out of it, and the key-format check the tests
    apply to every finished task. */
module DestKey {
  import opened Wrappers
  import opened Text
  import Uuids
  import Timestamps

  /** `f"{time.strftime('%Y/%m/%d/%H/%M/%S')}/{uuid4()}"`, with the clock reading
      and the fresh UUID passed in. */
  function CopyFileKey(clock: Timestamps.Clock, id: Uuids.Uuid): (key: string)
    ensures Split(key, '/') == Timestamps.Fields(clock) + [Uuids.Format(id)]
  {
    var fs := Timestamps.Fields(clock);
    var key := Timestamps.Format(clock) + "/" + Uuids.Format(id);
    var parts := fs + [Uuids.Format(id)];
    assert parts[..6] == fs;
    JoinSnoc(parts, '/');
    UuidHasNoSlash(id);
    SplitJoin(parts, '/');
    key
  }

  /** `UUID(key.rsplit("/", 1)[-1])`; `None` is the `ValueError` raised when the
      last segment is not a UUID. */
  function ExtractId(key: string): (r: Option<Uuids.Uuid>)
    ensures r.Some? ==>
      var h := Uuids.Normalize(AfterLast(key, '/'));
      Uuids.AllHex(h) && Uuids.Hex(r.value) == Uuids.LowerHex(h)
  {
    Uuids.Parse(AfterLast(key, '/'))
  }

  lemma UuidHasNoSlash(id: Uuids.Uuid)
    ensures '/' !in Uuids.Format(id)
  {
    Uuids.CanonicalChars(Uuids.Format(id));
  }

  /** A built key splits into exactly seven segments: six timestamp fields and the UUID. */
  lemma CopyKeySegments(clock: Timestamps.Clock, id: Uuids.Uuid)
    ensures var parts := Split(CopyFileKey(clock, id), '/');
      |parts| == 7 && parts[6] == Uuids.Format(id) && Timestamps.Parse(Join(parts[..6], '/')) == Some(clock)
  {
    var parts := Split(CopyFileKey(clock, id), '/');
    assert parts[..6] == Timestamps.Fields(clock);
  }

  /** The id the API stage extracts is exactly the UUID the copy stage put in the key. */
  lemma ExtractCopyKey(clock: Timestamps.Clock, id: Uuids.Uuid)
    ensures ExtractId(CopyFileKey(clock, id)) == Some(id)
  {
    UuidHasNoSlash(id);
    AfterLastOfPieces(Timestamps.Format(clock), '/', Uuids.Format(id));
    Uuids.ParseFormat(id);
  }

  /** Distinct (clock, UUID) pairs give distinct keys; in particular distinct UUIDs do. */
  lemma CopyKeyInjective(c1: Timestamps.Clock, u1: Uuids.Uuid, c2: Timestamps.Clock, u2: Uuids.Uuid)
    requires CopyFileKey(c1, u1) == CopyFileKey(c2, u2)
    ensures c1 == c2 && u1 == u2
  {
    ExtractCopyKey(c1, u1);
    ExtractCopyKey(c2, u2);
    CopyKeySegments(c1, u1);
    CopyKeySegments(c2, u2);
  }

  // ---------------------------------------------------------------------
  // the tests' key-format check

  /** A Python value handed to the checks: a `str`, a `UUID` object, or any other
      object, given by the text `str()` prints for it. */
  datatype Value = Str(s: string) | UuidObj(u: Uuids.Uuid) | Obj(text: string)

  /** `str(v)`. */
  function PyStr(v: Value): string
  {
    match v
    case Str(s) => s
    case UuidObj(u) => Uuids.Format(u)
    case Obj(text) => text
  }

  /** `__is_valid_uuid`: a `UUID` object, or anything whose `str()` parses as one. */
  predicate IsValidUuid(v: Value)
    ensures IsValidUuid(v) <==> Uuids.Parse(PyStr(v)).Some?
  {
    if v.UuidObj? then
      Uuids.ParseFormat(v.u);
      true
    else Uuids.Parse(PyStr(v)).Some?
  }

  /** `__is_valid_s3_dest_key`: a `str` of seven `/`-segments whose first six form
      a `%Y/%m/%d/%H/%M/%S` timestamp and whose seventh is a UUID. */
  predicate IsValidDestKey(v: Value)
    ensures IsValidDestKey(v) ==> v.Str? && ExtractId(v.s).Some?
  {
    if !v.Str? then false
    else
      AfterLastIsLastPiece(v.s, '/');
      var parts := Split(v.s, '/');
      if |parts| != 7 then false
      else if Timestamps.Parse(Join(parts[..6], '/')).None? then false
      else IsValidUuid(Str(parts[6]))
  }

  /** Which values `__is_valid_uuid` accepts. */
  lemma IsValidUuidCases(v: Value)
    ensures v.UuidObj? ==> IsValidUuid(v)
    ensures v.Str? ==> (IsValidUuid(v) <==> Uuids.Parse(v.s).Some?)
    ensures v.Obj? ==> (IsValidUuid(v) <==> Uuids.Parse(v.text).Some?)
  {
  }

  /** A value that is not a `str` is never a valid key. */
  lemma NonStringKeyInvalid(v: Value)
    requires !v.Str?
    ensures !IsValidDestKey(v)
  {
  }

  /** A key of a parseable timestamp, a slash and a slash-free UUID text is valid. */
  lemma {:induction false} ComposedKeyIsValid(t: string, i: string)
    requires Timestamps.Parse(t).Some?
    requires '/' !in i && Uuids.Parse(i).Some?
    ensures IsValidDestKey(Str(t + "/" + i))
  {
    var ts := Split(t, '/');
    assert |ts| == 6;
    var parts := ts + [i];
    assert forall j :: 0 <= j < |parts| ==> '/' !in parts[j];
    JoinSplit(t, '/');
    assert parts[..6] == ts;
    JoinSnoc(parts, '/');
    SplitJoin(parts, '/');
  }

  /** Conversely every valid key is a parseable timestamp, a slash and a
      slash-free UUID text: `ComposedKeyIsValid` and this lemma together state
      what the check accepts without counting segments. */
  lemma {:induction false} ValidKeyDecomposes(k: string) returns (t: string, i: string)
    requires IsValidDestKey(Str(k))
    ensures k == t + "/" + i
    ensures Timestamps.Parse(t).Some?
    ensures '/' !in i && Uuids.Parse(i).Some?
  {
    var parts := Split(k, '/');
    t, i := Join(parts[..6], '/'), parts[6];
    JoinSplit(k, '/');
    JoinSnoc(parts, '/');
  }

  /** Every key the copy stage builds passes the tests' key-format check. */
  lemma CopyKeyIsValid(clock: Timestamps.Clock, id: Uuids.Uuid)
    ensures IsValidDestKey(Str(CopyFileKey(clock, id)))
  {
    UuidHasNoSlash(id);
    Uuids.ParseFormat(id);
    ComposedKeyIsValid(Timestamps.Format(clock), Uuids.Format(id));
  }

  /** The API stage never fails on a key the check accepts: its last segment is the
      check's seventh segment, which parses. */
  lemma ValidKeyExtracts(k: string)
    requires IsValidDestKey(Str(k))
    ensures ExtractId(k).Some?
  {
    var t, i := ValidKeyDecomposes(k);
    AfterLastOfPieces(t, '/', i);
  }

  /** The timestamp of a key built between `before` and `after` lies between the two
      instants truncated to whole seconds. */
  lemma CopyKeyTimeWithinRun(before: Timestamps.Instant, now: Timestamps.Instant,
                             after: Timestamps.Instant, id: Uuids.Uuid)
    requires Timestamps.IsClockReading(now.time)
    requires Timestamps.InstantLe(before, now) && Timestamps.InstantLe(now, after)
    ensures var parts := Split(CopyFileKey(now.time, id), '/');
      && |parts| == 7
      && var t := Timestamps.Parse(Join(parts[..6], '/'));
      && t.Some?
      && Timestamps.InstantLe(Timestamps.Truncate(before), Timestamps.Instant(t.value, 0))
      && Timestamps.InstantLe(Timestamps.Instant(t.value, 0), Timestamps.Truncate(after))
  {
    CopyKeySegments(now.time, id);
    Timestamps.TruncateMonotone(before, now);
    Timestamps.TruncateMonotone(now, after);
  }

  /** Whatever precedes it, a canonical UUID text after the last slash is read back
      as the UUID that prints as that very text (the tests' example key
      `2025/01/15/14/30/45/550e8400-e29b-41d4-a716-446655440000` is one instance). */
  lemma ExtractCanonicalId(t: string, i: string)
    requires Uuids.IsCanonical(i)
    ensures ExtractId(t + "/" + i).Some? && Uuids.Format(ExtractId(t + "/" + i).value) == i
  {
    Uuids.CanonicalChars(i);
    AfterLastOfPieces(t, '/', i);
    Uuids.CanonicalRoundTrip(i);
  }
}
