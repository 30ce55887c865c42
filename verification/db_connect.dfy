/** `dbConnect` (`src/app/utils/dbConnect.ts`): reuse of a live connection,
    the retry loop with exponential back-off, the one-time SuperAdmin lookup
    and the scheduling of the storage monitor. Each attempt's outcome (does
    the connection come up, does the SuperAdmin lookup answer) is an input. */
module DbConnect {

  import opened Wrappers

  const DefaultRetries: int := 3
  const DefaultInitialDelayMs: nat := 500

  /** The shared connection cache as `dbConnect` reads it. */
  datatype Cache = Cache(
    hasConn: bool,
    connReady: bool,
    superAdminChecked: bool,
    monitoringStarted: bool)

  /** What happens in one attempt: the connect promise settles, then (once
      connected and not yet checked) the SuperAdmin lookup answers. */
  datatype Attempt = Attempt(connect: Result<(), string>, adminLookup: Result<bool, string>)

  /** The observable effects of one call. `result` is a failure carrying
      the thrown value, `None` standing for the `null` thrown when no
      attempt ran. */
  datatype ConnectRun = ConnectRun(
    result: Result<(), Option<string>>,
    attempts: nat,
    sleeps: seq<nat>,
    monitorScheduled: bool,
    superAdmin: Option<bool>)

  function Pow2(n: nat): (r: nat)
    ensures r >= 1
  {
    if n == 0 then 1 else 2 * Pow2(n - 1)
  }

  /** The back-off after failed attempt `a` (1-based). */
  function Backoff(initialDelayMs: nat, a: nat): nat
    requires a >= 1
  {
    initialDelayMs * Pow2(a - 1)
  }

  /** The connection is up during attempt `a` once some attempt up to `a`
      brought it up (later attempts reuse it). */
  ghost predicate ConnectedBy(outcome: nat -> Attempt, a: nat) {
    exists b :: 1 <= b <= a && outcome(b).connect.Success?
  }

  /** Attempt `a` returns the connection. */
  ghost predicate AttemptSucceeds(outcome: nat -> Attempt, checked: bool, a: nat) {
    ConnectedBy(outcome, a) && (checked || outcome(a).adminLookup.Success?)
  }

  /** The error attempt `a` ends with when it fails. */
  ghost function AttemptError(outcome: nat -> Attempt, a: nat): string {
    if ConnectedBy(outcome, a) && outcome(a).adminLookup.Failure? then outcome(a).adminLookup.error
    else if outcome(a).connect.Failure? then outcome(a).connect.error
    else ""
  }

  /** `dbConnect(retries, initialDelayMs)`. */
  method Connect(cache: Cache, retries: int, initialDelayMs: nat, outcome: nat -> Attempt)
    returns (run: ConnectRun)
    // a live connection is returned at once
    ensures cache.hasConn ==>
      && run.result.Success? && run.attempts == 0 && run.sleeps == []
      && (run.monitorScheduled <==> !cache.monitoringStarted && cache.connReady)
    // otherwise at most `retries` attempts, each failed one but the last followed by its back-off
    ensures !cache.hasConn ==>
      && run.attempts <= (if retries < 0 then 0 else retries)
      && (forall i :: 0 <= i < |run.sleeps| ==> run.sleeps[i] == Backoff(initialDelayMs, i + 1))
      && (run.result.Success? <==> exists a :: 1 <= a <= retries && AttemptSucceeds(outcome, cache.superAdminChecked, a))
      && (run.result.Success? ==>
            && run.attempts >= 1 && |run.sleeps| == run.attempts - 1
            && AttemptSucceeds(outcome, cache.superAdminChecked, run.attempts)
            && forall a :: 1 <= a < run.attempts ==> !AttemptSucceeds(outcome, cache.superAdminChecked, a))
      && (run.result.Failure? ==>
            && run.attempts == (if retries < 0 then 0 else retries)
            && |run.sleeps| == (if retries <= 1 then 0 else retries - 1)
            && run.result.error == (if retries <= 0 then None else Some(AttemptError(outcome, retries))))
      // only the first connection promise schedules the monitor
      && (run.monitorScheduled <==> outcome(1).connect.Success? && !cache.monitoringStarted)
      && (run.superAdmin.Some? ==> run.result.Success? && !cache.superAdminChecked)
  {
    if cache.hasConn {
      return ConnectRun(Success(()), 0, [], !cache.monitoringStarted && cache.connReady, None);
    }
    var monitorScheduled := outcome(1).connect.Success? && !cache.monitoringStarted;
    var connected := false;
    var lastError: Option<string> := None;
    var sleeps: seq<nat> := [];
    var attempt := 1;
    while attempt <= retries
      invariant 1 <= attempt && (retries >= 1 ==> attempt <= retries + 1) && (retries < 1 ==> attempt == 1)
      invariant connected <==> ConnectedBy(outcome, attempt - 1)
      invariant forall a :: 1 <= a < attempt ==> !AttemptSucceeds(outcome, cache.superAdminChecked, a)
      invariant |sleeps| == (if attempt <= retries then attempt - 1 else if retries >= 1 then retries - 1 else 0)
      invariant forall i :: 0 <= i < |sleeps| ==> sleeps[i] == Backoff(initialDelayMs, i + 1)
      invariant attempt == 1 <==> lastError.None?
      invariant attempt > 1 ==> lastError == Some(AttemptError(outcome, attempt - 1))
    {
      var o := outcome(attempt);
      var failure: Option<string> := None;
      if !connected && o.connect.Failure? {
        failure := Some(o.connect.error);
        assert !ConnectedBy(outcome, attempt);
      } else {
        if !connected {
          assert ConnectedBy(outcome, attempt);
        }
        connected := true;
        if !cache.superAdminChecked && o.adminLookup.Failure? {
          failure := Some(o.adminLookup.error);
        } else {
          var found := if cache.superAdminChecked then None else Some(o.adminLookup.value);
          assert AttemptSucceeds(outcome, cache.superAdminChecked, attempt);
          return ConnectRun(Success(()), attempt, sleeps, monitorScheduled, found);
        }
      }
      lastError := failure;
      if attempt < retries {
        sleeps := sleeps + [Backoff(initialDelayMs, attempt)];
      }
      attempt := attempt + 1;
    }
    return ConnectRun(Failure(lastError), attempt - 1, sleeps, monitorScheduled, None);
  }
}
