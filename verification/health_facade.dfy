/** `HealthFacade` (src/app/core/facades/health.facade.ts): the latest
    health status and a history of at most ten, newest first. */
module HealthFacade {
  import opened Wrappers
  import opened Models
  import opened HealthService

  const HistoryLimit: nat := 10

  datatype Facade = Facade(health: Option<HealthStatus>, loading: bool, history: seq<HealthStatus>)

  ghost predicate Valid(f: Facade) {
    |f.history| <= HistoryLimit
  }

  function Initial(): (f: Facade)
    ensures Valid(f) && f.health.None? && !f.loading && f.history == []
  {
    Facade(None, false, [])
  }

  /** `checkHealth` up to the request. */
  function CheckHealth(f: Facade): (g: Facade)
    ensures g.loading && g.(loading := f.loading) == f
  {
    f.(loading := true)
  }

  /** `[status, ...history].slice(0, 10)`. */
  function Push(history: seq<HealthStatus>, status: HealthStatus): (h: seq<HealthStatus>)
    ensures |h| == if |history| < HistoryLimit then |history| + 1 else HistoryLimit
    ensures h[0] == status
    ensures forall i :: 1 <= i < |h| ==> h[i] == history[i - 1]
  {
    var all := [status] + history;
    if |all| <= HistoryLimit then all else all[..HistoryLimit]
  }

  /** The answer to `checkFullHealth`. The error branch, with its fixed
      down/down status and `"unknown"` endpoint, leaves the history alone. */
  function CheckHealthDone(f: Facade, timestamp: string, outcome: Result<HealthStatus, HttpError>): (g: Facade)
    ensures (Valid(f) || outcome.Success?) ==> Valid(g)
    ensures !g.loading
    ensures outcome.Success? ==> g.health == Some(outcome.value) && g.history == Push(f.history, outcome.value)
    ensures outcome.Failure? ==>
      && g.history == f.history
      && g.health == Some(HealthStatus(Down, Down, timestamp, "unknown", ErrorDetails(outcome.error.message, None)))
  {
    match outcome
    case Success(status) => f.(health := Some(status), history := Push(f.history, status), loading := false)
    case Failure(err) =>
      f.(health := Some(HealthStatus(Down, Down, timestamp, "unknown", ErrorDetails(err.message, None))), loading := false)
  }

  function Reverse<T>(s: seq<T>): (r: seq<T>)
    ensures |r| == |s| && forall i :: 0 <= i < |s| ==> r[i] == s[|s| - 1 - i]
  {
    if s == [] then [] else Reverse(s[1..]) + [s[0]]
  }

  function Min(a: int, b: int): int {
    if a <= b then a else b
  }

  /** Several checks in a row, each answered by a status. */
  function CheckSeveral(f: Facade, statuses: seq<HealthStatus>): (g: Facade)
    requires Valid(f)
    ensures Valid(g)
    decreases |statuses|
  {
    if statuses == [] then f
    else CheckSeveral(CheckHealthDone(CheckHealth(f), "", Success(statuses[0])), statuses[1..])
  }

  /** After several answered checks the history holds the latest statuses,
      newest first, followed by the older history, cut at ten. */
  lemma {:induction false} HistoryAfterSeveral(f: Facade, statuses: seq<HealthStatus>)
    requires Valid(f)
    ensures
      var all := Reverse(statuses) + f.history;
      CheckSeveral(f, statuses).history == all[..Min(|all|, HistoryLimit)]
    decreases |statuses|
  {
    if statuses != [] {
      var g := CheckHealthDone(CheckHealth(f), "", Success(statuses[0]));
      HistoryAfterSeveral(g, statuses[1..]);
      var all := Reverse(statuses) + f.history;
      var rest := Reverse(statuses[1..]) + g.history;
      assert Reverse(statuses) == Reverse(statuses[1..]) + [statuses[0]];
      assert g.history == ([statuses[0]] + f.history)[..Min(|f.history| + 1, HistoryLimit)];
      assert rest[..Min(|rest|, HistoryLimit)] == all[..Min(|all|, HistoryLimit)];
    }
  }

  /** With the real service behind it the facade never takes its error
      branch: every probe answers with a status that is pushed. */
  lemma ServiceAnswersAreRecorded(f: Facade, apiBase: string, timestamp: string, probe: Result<HttpResponse, HttpError>)
    requires Valid(f)
    ensures
      var status := CheckFullHealth(apiBase, timestamp, probe);
      var g := CheckHealthDone(CheckHealth(f), timestamp, Success(status));
      && g.health == Some(status) && g.history[0] == status && g.history[0].endpoint == ProbeUrl(apiBase)
  {
  }
}
