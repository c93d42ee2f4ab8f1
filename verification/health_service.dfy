/** `HealthService.checkFullHealth` (src/app/core/services/health.service.ts):
    one probe request classified into liveness and readiness. The probe's
    timestamp is a parameter. */
module HealthService {
  import opened Wrappers
  import opened Models

  datatype Probe = Up | Down

  /** The `details` object of a `HealthStatus`. */
  datatype Details =
    | ResponseDetails(responseStatus: int, statusText: string)
    | ErrorDetails(error: Option<string>, errorStatus: Option<int>)

  datatype HealthStatus = HealthStatus(
    liveness: Probe,
    readiness: Probe,
    timestamp: string,
    endpoint: string,
    details: Details)

  /** A response that the HTTP client delivered as a success. */
  datatype HttpResponse = HttpResponse(status: int, statusText: string)

  /** The probed URL: the first pet of the first page. */
  function ProbeUrl(apiBase: string): string {
    apiBase + "/v1/pets?page=0&size=1"
  }

  /** The status codes at which the backend counts as alive although the
      request failed: it answered, with a client or server error. */
  predicate AnsweredWithError(status: int) {
    400 <= status < 600
  }

  /** `checkFullHealth` for one probe outcome. The result is a status in
      both cases: an error never reaches the subscriber. */
  function CheckFullHealth(apiBase: string, timestamp: string, outcome: Result<HttpResponse, HttpError>): (h: HealthStatus)
    ensures h.endpoint == ProbeUrl(apiBase) && h.timestamp == timestamp
    ensures outcome.Success? ==>
      && h.liveness == Up
      && (h.readiness == Up <==> outcome.value.status == 200)
      && h.details == ResponseDetails(outcome.value.status, outcome.value.statusText)
    ensures outcome.Failure? ==>
      && h.readiness == Down
      && (h.liveness == Up <==> AnsweredWithError(outcome.error.status))
      && h.details == ErrorDetails(outcome.error.message, Some(outcome.error.status))
  {
    match outcome
    case Success(res) =>
      HealthStatus(Up, if res.status == 200 then Up else Down, timestamp, ProbeUrl(apiBase),
                   ResponseDetails(res.status, res.statusText))
    case Failure(err) =>
      HealthStatus(if 400 <= err.status < 600 then Up else Down, Down, timestamp, ProbeUrl(apiBase),
                   ErrorDetails(err.message, Some(err.status)))
  }

  /** Readiness implies liveness, whatever the outcome. */
  lemma ReadyImpliesLive(apiBase: string, timestamp: string, outcome: Result<HttpResponse, HttpError>)
    ensures CheckFullHealth(apiBase, timestamp, outcome).readiness == Up ==>
            CheckFullHealth(apiBase, timestamp, outcome).liveness == Up
  {
  }

  /** A network failure (status 0) is reported as down on both probes. */
  lemma NetworkFailureIsDown(apiBase: string, timestamp: string, e: HttpError)
    requires e.status == 0
    ensures CheckFullHealth(apiBase, timestamp, Failure(e)).liveness == Down
    ensures CheckFullHealth(apiBase, timestamp, Failure(e)).readiness == Down
  {
  }
}
