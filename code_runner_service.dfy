/**
 * The web application's client of the runner (`CodeRunnerService` in
 * flask-app/app/services/code_runner_service.py): one POST to the runner's /execute and a
 * classification of how that HTTP call ended into `(success, data, error)`.
 *
 * The HTTP call itself is not modelled: its outcome is an `HttpOutcome` parameter, and the
 * configured `CODE_EXECUTION_TIMEOUT` is a parameter too.
 */
module RunnerClient {
  import opened Base
  import Runner

  /** Seconds the HTTP budget adds to the execution budget sent to the runner. */
  const HttpMargin: int := 5

  const ServiceErrorPrefix: string := "코드 실행 서비스 오류: "
  const TransportTimeoutMessage: string := "코드 실행 시간이 초과되었습니다"
  const UnreachableMessage: string := "코드 실행 서비스에 연결할 수 없습니다"
  const UnexpectedPrefix: string := "코드 실행 중 오류가 발생했습니다: "

  /** The POST actually sent: body `{code, timeout}` and the `requests` timeout. */
  datatype RunnerCall = RunnerCall(code: string, timeout: int, httpTimeout: int)

  /** How `requests.post` ended. */
  datatype HttpOutcome =
    | Responded(status: int, body: Runner.CodeResponse)   // an answer whose body decodes as JSON
    | ReadTimeout                   // requests.exceptions.Timeout that is not a ConnectTimeout
    | ConnectTimeout                // a subclass of both Timeout and ConnectionError
    | ConnectionFailed              // any other requests.exceptions.ConnectionError
    | OtherRaised(message: string)  // any other exception, e.g. a body that is not JSON

  /** The `data` dict of the result: `{}` on every failure, else the runner's decoded answer. */
  datatype RunnerData = EmptyDict | Reported(response: Runner.CodeResponse)

  datatype CallResult = CallResult(success: bool, data: RunnerData, error: Option<string>)

  datatype Exchange = Exchange(call: RunnerCall, result: CallResult)

  /** The request sent for `execute_code(code, timeout)`. */
  function PlanCall(code: string, timeout: Option<int>, configuredTimeout: int): (c: RunnerCall)
    ensures c.code == code
    ensures timeout.None? ==> c.timeout == configuredTimeout
    ensures timeout.Some? ==> c.timeout == timeout.value
    ensures c.httpTimeout > c.timeout
    ensures c.httpTimeout == c.timeout + HttpMargin
  {
    var t := if timeout.None? then configuredTimeout else timeout.value;
    RunnerCall(code, t, t + HttpMargin)
  }

  function ServiceErrorMessage(status: int): string {
    ServiceErrorPrefix + IntToString(status)
  }

  /** True when the call failed before any answer arrived. */
  predicate TransportTimedOut(o: HttpOutcome) {
    o.ReadTimeout? || o.ConnectTimeout?
  }

  /** The `(success, data, error)` triple for one outcome of the HTTP call. */
  function Classify(o: HttpOutcome): (r: CallResult)
    ensures r.success <==> o.Responded? && o.status == 200
    ensures r.success ==> r.data == Reported(o.body) && r.error == None
    ensures !r.success ==> r.data == EmptyDict && r.error.Some? && r.error.value != ""
    ensures o.Responded? && o.status != 200 ==> r.error == Some(ServiceErrorMessage(o.status))
    ensures TransportTimedOut(o) ==> r.error == Some(TransportTimeoutMessage)
    ensures o.ConnectionFailed? ==> r.error == Some(UnreachableMessage)
    ensures o.OtherRaised? ==> r.error == Some(UnexpectedPrefix + o.message)
  {
    match o
    case Responded(status, body) =>
      if status == 200 then CallResult(true, Reported(body), None)
      else CallResult(false, EmptyDict, Some(ServiceErrorMessage(status)))
    case ReadTimeout => CallResult(false, EmptyDict, Some(TransportTimeoutMessage))
    case ConnectTimeout => CallResult(false, EmptyDict, Some(TransportTimeoutMessage))
    case ConnectionFailed => CallResult(false, EmptyDict, Some(UnreachableMessage))
    case OtherRaised(m) => CallResult(false, EmptyDict, Some(UnexpectedPrefix + m))
  }

  /** `CodeRunnerService.execute_code(code, timeout)`. */
  function ExecuteCode(code: string, timeout: Option<int>, configuredTimeout: int, o: HttpOutcome): (x: Exchange)
    ensures x.call == PlanCall(code, timeout, configuredTimeout)
    ensures x.result == Classify(o)
  {
    Exchange(PlanCall(code, timeout, configuredTimeout), Classify(o))
  }

  /** The program's own failure is passed through untouched as a successful call. */
  lemma ProgramFailureIsNotTransportFailure(body: Runner.CodeResponse)
    requires !body.success
    ensures Classify(Responded(200, body)).success
    ensures Classify(Responded(200, body)).data.response == body
  {
  }

  /**
   * The failure classes carry pairwise distinct messages: a timed-out call, an unreachable
   * service, an error status and an unexpected exception can always be told apart.
   */
  lemma TransportFailuresDistinct(status: int, message: string)
    ensures TransportTimeoutMessage != UnreachableMessage
    ensures TransportTimeoutMessage != ServiceErrorMessage(status)
    ensures TransportTimeoutMessage != UnexpectedPrefix + message
    ensures UnreachableMessage != ServiceErrorMessage(status)
    ensures UnreachableMessage != UnexpectedPrefix + message
    ensures ServiceErrorMessage(status) != UnexpectedPrefix + message
  {
    var s := ServiceErrorMessage(status);
    var u := UnexpectedPrefix + message;
    assert TransportTimeoutMessage[6] == '시' && UnreachableMessage[6] == '서';
    assert s[6] == '서' && s[9] == ' ';
    assert u[6] == '중';
    assert UnreachableMessage[9] == '에';
  }

  /** A connect timeout is reported as a timeout: `Timeout` is caught before `ConnectionError`. */
  lemma ConnectTimeoutIsTimeout()
    ensures Classify(ConnectTimeout).error == Classify(ReadTimeout).error
    ensures Classify(ConnectTimeout).error != Classify(ConnectionFailed).error
  {
    TransportFailuresDistinct(0, "");
  }

  /** How the GET to /health ended. */
  datatype HealthOutcome = Answered(status: int) | HealthRaised

  /** `check_service_health`: healthy exactly when /health answers 200. */
  function CheckServiceHealth(o: HealthOutcome): (healthy: bool)
    ensures healthy <==> o == Answered(200)
  {
    match o
    case Answered(status) => status == 200
    case HealthRaised => false
  }
}
