/**
 * The first-failure-wins validation pipeline shared by the three controllers: an ordered
 * list of checks, each with the status and message it answers with when it fails.
 */
module Pipeline {
  import opened Optional
  import opened StatusCodes
  import opened Responses

  datatype Check = Check(passes: bool, status: StatusCode, message: string)

  /** The position of the earliest failing check, or absent when every check passes. */
  function FirstFailure(checks: seq<Check>): (r: Option<nat>)
    ensures r.None? <==> forall i :: 0 <= i < |checks| ==> checks[i].passes
    ensures r.Some? ==> r.value < |checks| && !checks[r.value].passes
    ensures r.Some? ==> forall j :: 0 <= j < r.value ==> checks[j].passes
  {
    if checks == [] then None
    else if !checks[0].passes then Some(0)
    else match FirstFailure(checks[1..])
      case None => None
      case Some(i) => Some(i + 1)
  }

  /** The earliest failing check is the one reported, whatever follows it. */
  lemma FirstFailureAt(checks: seq<Check>, i: nat)
    requires i < |checks| && !checks[i].passes
    requires forall j :: 0 <= j < i ==> checks[j].passes
    ensures FirstFailure(checks) == Some(i)
  {
    var r := FirstFailure(checks);
    assert r.Some?;
    assert !(r.value < i) && !(r.value > i);
  }

  /** Checks after the first failing one are never consulted: any list sharing that prefix reports the same. */
  lemma FirstFailurePrefix(checks: seq<Check>, rest: seq<Check>, i: nat)
    requires FirstFailure(checks) == Some(i)
    requires i < |rest| && forall j :: 0 <= j <= i ==> rest[j] == checks[j]
    ensures FirstFailure(rest) == Some(i)
  {
    FirstFailureAt(rest, i);
  }

  /**
   * The response of an operation guarded by `checks`: the earliest failure's status and
   * message without data, or else `success`.
   */
  function Verdict<T>(checks: seq<Check>, success: Response<T>): Response<T> {
    match FirstFailure(checks)
    case Some(i) => OfNoData(checks[i].status, checks[i].message)
    case None => success
  }

  /** The response when check `i` is the earliest failure. */
  lemma VerdictAt<T>(checks: seq<Check>, i: nat, success: Response<T>)
    requires i < |checks| && !checks[i].passes
    requires forall j :: 0 <= j < i ==> checks[j].passes
    ensures FirstFailure(checks) == Some(i)
    ensures Verdict(checks, success) == OfNoData(checks[i].status, checks[i].message)
  {
    FirstFailureAt(checks, i);
  }

  /** The response when every check passes. */
  lemma VerdictNone<T>(checks: seq<Check>, success: Response<T>)
    requires forall j :: 0 <= j < |checks| ==> checks[j].passes
    ensures FirstFailure(checks) == None
    ensures Verdict(checks, success) == success
  {
  }

  /** No check answers with a success status when it fails. */
  ghost predicate FailuresAreErrors(checks: seq<Check>) {
    forall i :: 0 <= i < |checks| ==> checks[i].status.Code() >= 300
  }

  /** With failing statuses that are errors, the response is a success exactly when every check passes. */
  lemma VerdictSuccess<T>(checks: seq<Check>, success: Response<T>)
    requires FailuresAreErrors(checks) && success.IsSuccess()
    ensures Verdict(checks, success).IsSuccess() <==> FirstFailure(checks).None?
    ensures !Verdict(checks, success).IsSuccess() ==> Verdict(checks, success).data.None?
  {
  }
}
