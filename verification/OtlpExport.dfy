/** The exporter's bounded retry loop around one sequence number. */
module OtlpExport {

  const OTLP_MAX_ATTEMPTS: nat := 3

  datatype Code =
    | Cancelled | Unknown | InvalidArgument | DeadlineExceeded | NotFound | AlreadyExists
    | PermissionDenied | ResourceExhausted | FailedPrecondition | Aborted | OutOfRange
    | Unimplemented | Internal | Unavailable | DataLoss | Unauthenticated

  datatype Attempt = Accepted | PrepareFailed | Refused(code: Code)

  datatype Decision = Retry | RefreshAuth | Stop

  predicate Transient(code: Code) {
    code.Unavailable? || code.DeadlineExceeded? || code.Unknown? || code.ResourceExhausted? || code.Aborted?
  }

  function RetryDecision(code: Code, hasAuth: bool, refreshed: bool): Decision {
    if Transient(code) then Retry
    else if code.Unauthenticated? && hasAuth && !refreshed then RefreshAuth
    else Stop
  }

  /** Attempt `k` is followed by another one: a transient refusal, or the first expired credential. */
  predicate Retried(outcomes: seq<Attempt>, k: nat, hasAuth: bool)
    requires k < |outcomes|
  {
    && outcomes[k].Refused?
    && (Transient(outcomes[k].code)
        || (outcomes[k].code.Unauthenticated? && hasAuth && Refused(Unauthenticated) !in outcomes[..k]))
  }

  /**
   * One logical export. `outcomes` is what the network and the server answer to each attempt.
   * Every attempt carries the same sequence; there are at most three; each attempt but the
   * last was answered by something worth retrying, and a failed export stopped either at the
   * third attempt or at an answer not worth retrying. Credentials are refreshed at most once.
   */
  method Export(sequence: nat, outcomes: seq<Attempt>, hasAuth: bool)
    returns (ok: bool, tried: seq<nat>, refreshes: nat)
    requires |outcomes| == OTLP_MAX_ATTEMPTS
    ensures 1 <= |tried| <= OTLP_MAX_ATTEMPTS
    ensures forall k :: 0 <= k < |tried| ==> tried[k] == sequence
    ensures forall k :: 0 <= k < |tried| - 1 ==> Retried(outcomes, k, hasAuth)
    ensures ok <==> outcomes[|tried| - 1].Accepted?
    ensures !ok ==> |tried| == OTLP_MAX_ATTEMPTS || !Retried(outcomes, |tried| - 1, hasAuth)
    ensures refreshes <= 1
    ensures refreshes == 1 <==> Refused(Unauthenticated) in outcomes[..|tried| - 1]
  {
    var refreshedAuth := false;
    tried, refreshes := [], 0;
    var attempt := 1;
    while true
      invariant 1 <= attempt <= OTLP_MAX_ATTEMPTS && |tried| == attempt - 1
      invariant forall k :: 0 <= k < |tried| ==> tried[k] == sequence
      invariant forall k :: 0 <= k < |tried| ==> Retried(outcomes, k, hasAuth)
      invariant refreshedAuth <==> Refused(Unauthenticated) in outcomes[..|tried|]
      invariant refreshes == if refreshedAuth then 1 else 0
      decreases OTLP_MAX_ATTEMPTS - attempt
    {
      tried := tried + [sequence];
      assert outcomes[..attempt] == outcomes[..attempt - 1] + [outcomes[attempt - 1]];
      match outcomes[attempt - 1]
      case Accepted => return true, tried, refreshes;
      case PrepareFailed => return false, tried, refreshes;
      case Refused(code) =>
        var decision := RetryDecision(code, hasAuth, refreshedAuth);
        if attempt == OTLP_MAX_ATTEMPTS || decision == Stop {
          return false, tried, refreshes;
        }
        if decision == RefreshAuth {
          refreshes := refreshes + 1;
          refreshedAuth := true;
        }
        attempt := attempt + 1;
    }
  }
}
