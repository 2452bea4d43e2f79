/** The verifier's final report over the records it collected. */
module Report {
  import opened Wrappers
  import opened Tasks

  /** Expected, processed, success and failed counts, and the number of missing files
      when the warning fires (`None` when it does not). */
  datatype Summary = Summary(expected: int, processed: nat, success: nat, failed: nat, missing: Option<int>)

  /** `[f for f in processed if f['status'] == "API_UPLOADED"]`. */
  function Successes(ps: seq<FileTask>): (r: seq<FileTask>)
    ensures forall t :: t in r <==> t in ps && t.status == ApiUploaded
    decreases |ps|
  {
    if |ps| == 0 then []
    else if ps[0].status == ApiUploaded then [ps[0]] + Successes(ps[1..])
    else Successes(ps[1..])
  }

  /** `[f for f in processed if f['status'] != "API_UPLOADED"]`. */
  function Failures(ps: seq<FileTask>): (r: seq<FileTask>)
    ensures forall t :: t in r <==> t in ps && t.status != ApiUploaded
    decreases |ps|
  {
    if |ps| == 0 then []
    else if ps[0].status != ApiUploaded then [ps[0]] + Failures(ps[1..])
    else Failures(ps[1..])
  }

  /** The two lists split the processed records between them, copies included. */
  lemma {:induction false} Partition(ps: seq<FileTask>)
    ensures multiset(Successes(ps)) + multiset(Failures(ps)) == multiset(ps)
    decreases |ps|
  {
    if |ps| > 0 {
      var t, rest := ps[0], ps[1..];
      Partition(rest);
      assert ps == [t] + rest;
      assert multiset(ps) == multiset{t} + multiset(rest);
      if t.status == ApiUploaded {
        assert Successes(ps) == [t] + Successes(rest) && Failures(ps) == Failures(rest);
        assert multiset(Successes(ps)) == multiset{t} + multiset(Successes(rest));
      } else {
        assert Failures(ps) == [t] + Failures(rest) && Successes(ps) == Successes(rest);
        assert multiset(Failures(ps)) == multiset{t} + multiset(Failures(rest));
      }
    }
  }

  /** The report `verifier` prints once it has seen its sentinel. */
  function MakeSummary(ps: seq<FileTask>, expected: int): (r: Summary)
    ensures r.processed == |ps| && r.success + r.failed == |ps|
    ensures r.success == |Successes(ps)| && r.failed == |Failures(ps)|
    ensures r.missing.Some? <==> |ps| != expected
    ensures r.missing.Some? ==> r.missing.value == expected - |ps|
  {
    Partition(ps);
    assert |multiset(Successes(ps))| + |multiset(Failures(ps))| == |multiset(ps)|;
    Summary(expected, |ps|, |Successes(ps)|, |Failures(ps)|,
            if |ps| != expected then Some(expected - |ps|) else None)
  }

  lemma {:induction false} AllSucceed(ps: seq<FileTask>)
    requires forall i :: 0 <= i < |ps| ==> ps[i].status == ApiUploaded
    ensures Successes(ps) == ps && Failures(ps) == []
    decreases |ps|
  {
    if |ps| > 0 {
      AllSucceed(ps[1..]);
    }
  }

  /** When every expected record arrived uploaded, the report shows full success and
      no missing-files warning. */
  lemma CleanSummary(ps: seq<FileTask>, expected: int)
    requires |ps| == expected
    requires forall i :: 0 <= i < |ps| ==> Uploaded(ps[i])
    ensures MakeSummary(ps, expected) == Summary(expected, expected, expected, 0, None)
  {
    AllSucceed(ps);
  }
}
