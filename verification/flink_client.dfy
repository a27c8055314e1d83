/**
 * The REST client of the current generation: URL construction, the terminate request and its
 * status rule, and the retry policy the terminate request installs.
 */
module FlinkClient {
  import opened Wrappers
  import opened Strings
  import Decimal

  /** `constructURL`: the base URL, a slash, then the path. */
  function ConstructURL(baseURL: string, path: string): (url: string)
    ensures |url| == |baseURL| + 1 + |path|
    ensures HasPrefix(url, baseURL) && url[|baseURL|] == '/' && url[|baseURL| + 1..] == path
  {
    baseURL + "/" + path
  }

  /** The path of a terminate request: the mode travels as a query parameter when it is set. */
  function TerminatePath(jobId: string, mode: string): string {
    if |mode| > 0 then "jobs/" + jobId + "?mode=" + mode else "jobs/" + jobId
  }

  /** The index of the first `c` in `s`, or `|s|` when there is none. */
  function IndexOf(s: string, c: char): (i: nat)
    ensures i <= |s|
    ensures i < |s| ==> s[i] == c
    ensures forall j :: 0 <= j < i ==> s[j] != c
    decreases |s|
  {
    if s == [] then 0 else if s[0] == c then 0 else 1 + IndexOf(s[1..], c)
  }

  /** Reads a terminate path back into the job id and the mode. */
  function ParseTerminatePath(path: string): Option<(string, string)> {
    if !HasPrefix(path, "jobs/") then None
    else
      var rest := path[5..];
      var q := IndexOf(rest, '?');
      if q == |rest| then Some((rest, ""))
      else if HasPrefix(rest[q..], "?mode=") then Some((rest[..q], rest[q + 6..]))
      else None
  }

  /**
   * A job id without a question mark and the mode can be read back from the path: two
   * different terminate requests never share a URL.
   */
  lemma TerminatePathRoundTrip(jobId: string, mode: string)
    requires '?' !in jobId
    ensures ParseTerminatePath(TerminatePath(jobId, mode)) == Some((jobId, mode))
  {
    var path := TerminatePath(jobId, mode);
    assert path[..5] == "jobs/";
    var rest := path[5..];
    assert rest[..|jobId|] == jobId;
    var q := IndexOf(rest, '?');
    if |mode| > 0 {
      assert rest == jobId + "?mode=" + mode;
      assert rest[|jobId|] == '?';
      assert q == |jobId|;
      assert rest[q..] == "?mode=" + mode;
      assert rest[q..][..6] == "?mode=";
    } else {
      assert rest == jobId;
    }
  }

  /** What the HTTP client's `Do` gave back: an error (and no response) or a response. */
  datatype Exchange = TransportFailure(error: string) | Received(status: int, body: string)

  function UnexpectedStatus(status: int, body: string): string {
    "Unexpected response status " + Decimal.FormatInt(status) + " with body " + body
  }

  /** What the terminate request comes to, as written: a failed exchange crashes the process. */
  datatype TerminateAsWrittenResult = Terminated | Failed(error: string) | NilDereference

  /**
   * `Terminate` as written: the deferred `res.Body.Close()` is evaluated before the error
   * check, so a transport failure, where `res` is nil, dereferences nil.
   */
  function TerminateAsWritten(exchange: Exchange): (r: TerminateAsWrittenResult)
    ensures r == NilDereference <==> exchange.TransportFailure?
  {
    match exchange
    case TransportFailure(_) => NilDereference
    case Received(status, body) =>
      if status != 202 then Failed(UnexpectedStatus(status, body)) else Terminated
  }


  /**
   * `Terminate` with the error checked before the body is touched: only 202 Accepted is a
   * success, a transport error is returned as is, any other status names itself and the body.
   */
  function TerminateResponse(exchange: Exchange): (r: Outcome)
    ensures r == Pass <==> exchange.Received? && exchange.status == 202
    ensures exchange.TransportFailure? ==> r == Fail(exchange.error)
    ensures exchange.Received? && exchange.status != 202 ==>
              r == Fail(UnexpectedStatus(exchange.status, exchange.body))
  {
    match exchange
    case TransportFailure(e) => Fail(e)
    case Received(status, body) =>
      if status != 202 then Fail(UnexpectedStatus(status, body)) else Pass
  }

  /**
   * Every failed exchange, a refused connection or a retry budget used up, brings the whole
   * process down as written, where the corrected request returns the exchange's error.
   */
  lemma TerminateAsWrittenCrashesOnTransportFailure(error: string)
    ensures TerminateAsWritten(TransportFailure(error)) == NilDereference
    ensures TerminateResponse(TransportFailure(error)) == Fail(error)
  {
  }

  /** Wherever the code as written returns, the corrected request returns the same outcome. */
  lemma TerminateResponseAgreesWhereNoCrash(exchange: Exchange)
    requires exchange.Received?
    ensures TerminateAsWritten(exchange) != NilDereference
    ensures TerminateAsWritten(exchange) == Terminated <==> TerminateResponse(exchange) == Pass
    ensures TerminateAsWritten(exchange).Failed? ==>
              TerminateResponse(exchange) == Fail(TerminateAsWritten(exchange).error)
  {
  }

  /** The terminate request goes to the base URL followed by a path that names the job and the mode. */
  function TerminateURL(baseURL: string, jobId: string, mode: string): (url: string)
    ensures HasPrefix(url, baseURL + "/jobs/" + jobId)
    ensures '?' !in jobId ==> ParseTerminatePath(url[|baseURL| + 1..]) == Some((jobId, mode))
  {
    var path := TerminatePath(jobId, mode);
    var url := ConstructURL(baseURL, path);
    var head := baseURL + "/jobs/" + jobId;
    assert url == head + (if |mode| > 0 then "?mode=" + mode else "");
    assert url[..|head|] == head;
    assert '?' !in jobId ==> ParseTerminatePath(path) == Some((jobId, mode)) by {
      if '?' !in jobId {
        TerminatePathRoundTrip(jobId, mode);
      }
    }
    url
  }

  /** What one attempt of the retrying client produced. */
  datatype Attempt = AttemptError(error: string) | AttemptResponse(status: int)

  /** `RetryPolicy`: whether to try again, and the error to hand back. */
  datatype RetryDecision = RetryDecision(retry: bool, error: Option<string>)

  /**
   * A cancelled or expired context stops with its error; a transport error is retried; a
   * missing status or a server error above 500 is retried; everything else, 500 included
   * (the job cannot be stopped), is final.
   */
  function RetryPolicy(contextError: Option<string>, attempt: Attempt): (d: RetryDecision)
    ensures contextError.Some? ==> d == RetryDecision(false, contextError)
    ensures contextError.None? && attempt.AttemptError? ==> d == RetryDecision(true, Some(attempt.error))
    ensures contextError.None? && attempt.AttemptResponse? ==> d.error.None?
    ensures d.error.None? ==>
              (d.retry <==> (attempt.AttemptResponse? && (attempt.status == 0 || attempt.status > 500)))
  {
    if contextError.Some? then RetryDecision(false, contextError)
    else
      match attempt
      case AttemptError(e) => RetryDecision(true, Some(e))
      case AttemptResponse(status) =>
        if status == 0 || status > 500 then RetryDecision(true, None) else RetryDecision(false, None)
  }

  /** An internal server error is never retried, every status above it is. */
  lemma RetryPolicyStopsAt500(status: int)
    requires 1 <= status
    ensures RetryPolicy(None, AttemptResponse(status)).retry <==> status > 500
  {
  }
}
