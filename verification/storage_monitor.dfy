/** The storage monitor of the database layer (`StorageMonitor` in
    `src/app/utils/dbConnect.ts`): classification of storage use against a
    512 MiB budget, the five-minute throttle with its cached status, the
    listener registry and the start/stop lifecycle of the periodic check.
    The database handle, its `stats()` answer and the clock are inputs. */
module StorageMonitor {

  import opened Wrappers
  import Text
  import Lists

  /** The storage budget: 512 MiB. */
  const MaxMemory: nat := 512 * 1024 * 1024

  /** At 80 % of the budget a backup is advised, at 95 % it is triggered. */
  const Warning: real := 0.8
  const Critical: real := 0.95

  /** Minimum spacing of two real checks: five minutes, in milliseconds. */
  const ThrottleMs: nat := 5 * 60 * 1000

  /** Period of the background check when none is given: 30 minutes. */
  const DefaultIntervalMs: nat := 30 * 60 * 1000

  /** Delay of the first check after monitoring starts. */
  const InitialCheckDelayMs: nat := 5000

  datatype Level = Normal | WarningLevel | CriticalLevel

  /** What the status message says. The percentage is kept as the text the
      application prints (one decimal place). */
  datatype StatusMessage =
    | UsageNormal
    | UsageWarning(percentText: string)
    | UsageCritical(percentText: string)
    | MonitoringError(reason: string)

  datatype BackupStatus = BackupStatus(
    needsBackup: bool,
    storageUsage: nat,
    storagePercentage: real,
    message: StatusMessage,
    timestamp: nat)

  /** The database handle as the monitor sees it. */
  datatype Connection = NoConnection | Connection(readyState: int, hasDb: bool)

  /** The monitor's state: the shared cache entries and the instance fields.
      `lastCheck == 0` means no successful check yet (the cache entry is
      falsy). `activeIntervals` counts running periodic timers. */
  datatype Monitor = Monitor(
    lastCheck: nat,
    cached: Option<BackupStatus>,
    monitoring: bool,
    monitoringStarted: bool,
    interval: Option<nat>,
    activeIntervals: nat,
    listeners: seq<nat>)

  const InitialMonitor := Monitor(0, None, false, false, None, 0, [])

  /** The text of a status message, given the formatted percentage. */
  function MessageText(m: StatusMessage): (r: string)
    ensures m.UsageNormal? ==> r == "Storage usage normal"
    ensures m.UsageCritical? ==> Text.StartsWith(r, "CRITICAL: ")
    ensures m.UsageWarning? ==> Text.StartsWith(r, "WARNING: ")
    ensures m.MonitoringError? ==> Text.StartsWith(r, "Storage monitoring error: ")
  {
    match m
    case UsageNormal => "Storage usage normal"
    case UsageWarning(p) =>
      Text.PrefixOfConcat("WARNING: ", "Storage usage at " + p + "%. Consider backup soon.");
      "WARNING: " + ("Storage usage at " + p + "%. Consider backup soon.")
    case UsageCritical(p) =>
      Text.PrefixOfConcat("CRITICAL: ", "Storage usage at " + p + "%. Backup required immediately.");
      "CRITICAL: " + ("Storage usage at " + p + "%. Backup required immediately.")
    case MonitoringError(reason) =>
      Text.PrefixOfConcat("Storage monitoring error: ", reason);
      "Storage monitoring error: " + reason
  }

  /** The message text tells the four kinds of message apart. */
  lemma MessageKindsDistinct(m: StatusMessage, n: StatusMessage)
    requires MessageText(m) == MessageText(n)
    ensures m.UsageNormal? == n.UsageNormal?
    ensures m.UsageWarning? == n.UsageWarning?
    ensures m.UsageCritical? == n.UsageCritical?
    ensures m.MonitoringError? == n.MonitoringError?
  {
    var t := MessageText(m);
    assert t == MessageText(n);
    if m.UsageNormal? || n.UsageNormal? {
      assert t == "Storage usage normal";
      assert t[0] == 'S' && |t| == 20;
    }
    assert m.UsageWarning? || n.UsageWarning? ==> t[0] == 'W' by {
      if m.UsageWarning? { assert Text.StartsWith(MessageText(m), "WARNING: "); }
      if n.UsageWarning? { assert Text.StartsWith(MessageText(n), "WARNING: "); }
    }
    assert m.UsageCritical? || n.UsageCritical? ==> t[0] == 'C' by {
      if m.UsageCritical? { assert Text.StartsWith(MessageText(m), "CRITICAL: "); }
      if n.UsageCritical? { assert Text.StartsWith(MessageText(n), "CRITICAL: "); }
    }
    assert m.MonitoringError? || n.MonitoringError? ==> t[..20] == "Storage monitoring e" by {
      if m.MonitoringError? { assert Text.StartsWith(MessageText(m), "Storage monitoring error: "); }
      if n.MonitoringError? { assert Text.StartsWith(MessageText(n), "Storage monitoring error: "); }
    }
  }

  /** Share of the budget in use, exactly. */
  function Percentage(size: nat): real {
    size as real / MaxMemory as real
  }

  /** Threshold classification of the storage in use. The bands are the
      same as comparing `100 * size` with `95` and `80` times the budget. */
  function Classify(size: nat): (l: Level)
    ensures l == CriticalLevel <==> Percentage(size) >= Critical
    ensures l == WarningLevel <==> Warning <= Percentage(size) < Critical
    ensures l == Normal <==> Percentage(size) < Warning
    ensures l == CriticalLevel <==> 100 * size >= 95 * MaxMemory
    ensures l == Normal <==> 100 * size < 80 * MaxMemory
  {
    var p := Percentage(size);
    if p >= Critical then CriticalLevel
    else if p >= Warning then WarningLevel
    else Normal
  }

  /** The status a successful check reports for `size` bytes at time `now`;
      `percentText` is the printed percentage. */
  function StatusFor(size: nat, percentText: string, now: nat): (s: BackupStatus)
    ensures s.needsBackup <==> Classify(size) != Normal
    ensures s.storageUsage == size && s.storagePercentage == Percentage(size)
    ensures s.message.UsageCritical? <==> Classify(size) == CriticalLevel
    ensures s.message.UsageWarning? <==> Classify(size) == WarningLevel
    ensures s.message == UsageNormal <==> Classify(size) == Normal
    ensures s.timestamp == now
  {
    match Classify(size)
    case CriticalLevel => BackupStatus(true, size, Percentage(size), UsageCritical(percentText), now)
    case WarningLevel => BackupStatus(true, size, Percentage(size), UsageWarning(percentText), now)
    case Normal => BackupStatus(false, size, Percentage(size), UsageNormal, now)
  }

  /** The status recorded when a check fails. */
  function ErrorStatus(reason: string, now: nat): (s: BackupStatus)
    ensures !s.needsBackup && s.storageUsage == 0 && s.storagePercentage == 0.0
    ensures Text.StartsWith(MessageText(s.message), "Storage monitoring error: ")
  {
    BackupStatus(false, 0, 0.0, MonitoringError(reason), now)
  }

  /** The answer of `db.stats()`: an error, or the reported storage size
      (absent or zero both read as 0). */
  type Stats = Result<Option<nat>, string>

  /** Everything one call of `checkStorageUsage` produces. */
  datatype CheckOutcome = CheckOutcome(
    status: Option<BackupStatus>,
    monitor: Monitor,
    statsQueried: bool,
    notified: seq<nat>,
    backupTriggered: bool)

  /** `checkStorageUsage`: the connection is checked first, then the
      throttle, then the database is asked for its size. The call never
      fails: errors become an error status, which is cached without
      counting as a successful check. */
  function CheckStorage(m: Monitor, conn: Connection, now: nat, stats: Stats, percentText: string)
    : (o: CheckOutcome)
    // a connection that is absent, not ready or without a database is an error
    ensures (conn.NoConnection? || conn.readyState != 1) ==>
      && o.status == Some(ErrorStatus("Database connection not available or not connected", now))
      && !o.statsQueried
    ensures conn.Connection? && conn.readyState == 1 && !conn.hasDb ==>
      && o.status == Some(ErrorStatus("Database instance not available", now))
      && !o.statsQueried
    // within five minutes of a successful check the cached status is returned
    ensures conn == Connection(1, true) && m.lastCheck != 0 && now - m.lastCheck < ThrottleMs ==>
      o.status == m.cached && o.monitor == m && !o.statsQueried
    // otherwise the size is fetched and classified
    ensures conn == Connection(1, true) && (m.lastCheck == 0 || now - m.lastCheck >= ThrottleMs) ==>
      o.statsQueried &&
      match stats
      case Failure(e) => o.status == Some(ErrorStatus(e, now))
      case Success(size) => o.status == Some(StatusFor(size.GetOr(0), percentText, now))
    // only a successful check moves the throttle and reaches the listeners,
    // and every successful check does both
    ensures conn == Connection(1, true) && (m.lastCheck == 0 || now - m.lastCheck >= ThrottleMs) && stats.Success? ==>
      o.monitor.lastCheck == now && o.notified == m.listeners
    ensures o.monitor.lastCheck != m.lastCheck ==> o.statsQueried && stats.Success? && o.monitor.lastCheck == now
    ensures o.notified != [] ==> o.notified == m.listeners && o.monitor.lastCheck == now
    // the backup fires only in the critical band
    ensures o.backupTriggered <==> o.statsQueried && stats.Success? && Classify(stats.value.GetOr(0)) == CriticalLevel
    // whatever is returned is what the cache now holds
    ensures o.status.Some? ==> o.monitor.cached == o.status
    // the lifecycle and the listener registry are untouched
    ensures o.monitor.monitoring == m.monitoring && o.monitor.interval == m.interval
    ensures o.monitor.activeIntervals == m.activeIntervals && o.monitor.listeners == m.listeners
    ensures o.monitor.monitoringStarted == m.monitoringStarted
  {
    if conn.NoConnection? || conn.readyState != 1 then
      Fail(m, "Database connection not available or not connected", now)
    else if !conn.hasDb then
      Fail(m, "Database instance not available", now)
    else if m.lastCheck != 0 && now - m.lastCheck < ThrottleMs then
      CheckOutcome(m.cached, m, false, [], false)
    else
      match stats
      case Failure(e) =>
        var f := Fail(m, e, now);
        f.(statsQueried := true)
      case Success(reported) =>
        var size := reported.GetOr(0);
        var s := StatusFor(size, percentText, now);
        var m' := m.(cached := Some(s), lastCheck := now);
        CheckOutcome(Some(s), m', true, m.listeners, Classify(size) == CriticalLevel)
  }

  /** The catch branch: cache and return an error status. */
  function Fail(m: Monitor, reason: string, now: nat): (o: CheckOutcome)
    ensures o.status == Some(ErrorStatus(reason, now))
    ensures o.monitor == m.(cached := o.status)
    ensures !o.statsQueried && o.notified == [] && !o.backupTriggered
  {
    var s := ErrorStatus(reason, now);
    CheckOutcome(Some(s), m.(cached := Some(s)), false, [], false)
  }

  /** `getLastStatus`: the cached status, if any. */
  function LastStatus(m: Monitor): (r: Option<BackupStatus>)
    ensures r.Some? <==> m.cached.Some?
  {
    m.cached
  }

  // ------------------------------------------------------------ lifecycle

  /** The lifecycle invariant: the flag is set exactly when a timer handle
      is held, and at most that one timer runs. */
  predicate Lifecycle(m: Monitor) {
    && (m.monitoring <==> m.interval.Some?)
    && m.activeIntervals == (if m.interval.Some? then 1 else 0)
  }

  /** The cache invariant: a successful check always left a status behind. */
  predicate CacheFilled(m: Monitor) {
    m.lastCheck != 0 ==> m.cached.Some?
  }

  /** `startMonitoring(intervalMs)`: a second start is a no-op; otherwise any
      stale timer is cleared and a new one set, and a first check is
      scheduled after five seconds (`firstCheckScheduled`). */
  function StartMonitoring(m: Monitor, intervalMs: nat): (r: (Monitor, bool))
    ensures m.monitoring ==> r == (m, false)
    ensures !m.monitoring ==>
      && r.1
      && r.0.monitoring && r.0.monitoringStarted && r.0.interval == Some(intervalMs)
    ensures Lifecycle(m) ==> r.0.activeIntervals == 1
    ensures r.0.lastCheck == m.lastCheck && r.0.cached == m.cached && r.0.listeners == m.listeners
  {
    if m.monitoring then (m, false)
    else
      var cleared := if m.interval.Some? && m.activeIntervals > 0 then m.activeIntervals - 1 else m.activeIntervals;
      (m.(interval := Some(intervalMs), activeIntervals := cleared + 1,
          monitoring := true, monitoringStarted := true), true)
  }

  /** `stopMonitoring`: clear the timer if one is held and drop both flags. */
  function StopMonitoring(m: Monitor): (r: Monitor)
    ensures !r.monitoring && !r.monitoringStarted && r.interval.None?
    ensures Lifecycle(m) ==> r.activeIntervals == 0
    ensures r.lastCheck == m.lastCheck && r.cached == m.cached && r.listeners == m.listeners
  {
    var cleared := if m.interval.Some? && m.activeIntervals > 0 then m.activeIntervals - 1 else m.activeIntervals;
    m.(interval := None, activeIntervals := cleared, monitoring := false, monitoringStarted := false)
  }

  /** Starting, stopping and checking keep the lifecycle and cache
      invariants, so there is never more than one running timer. */
  lemma OperationsPreserveInvariants(m: Monitor, intervalMs: nat, conn: Connection, now: nat, stats: Stats, pct: string)
    requires Lifecycle(m) && CacheFilled(m)
    ensures Lifecycle(StartMonitoring(m, intervalMs).0) && CacheFilled(StartMonitoring(m, intervalMs).0)
    ensures Lifecycle(StopMonitoring(m)) && CacheFilled(StopMonitoring(m))
    ensures var o := CheckStorage(m, conn, now, stats, pct);
      Lifecycle(o.monitor) && CacheFilled(o.monitor)
  {
    StartPreserves(m, intervalMs);
    StopPreserves(m);
    CheckPreserves(m, conn, now, stats, pct);
  }

  lemma StartPreserves(m: Monitor, intervalMs: nat)
    requires Lifecycle(m) && CacheFilled(m)
    ensures Lifecycle(StartMonitoring(m, intervalMs).0) && CacheFilled(StartMonitoring(m, intervalMs).0)
  {
  }

  lemma StopPreserves(m: Monitor)
    requires Lifecycle(m) && CacheFilled(m)
    ensures Lifecycle(StopMonitoring(m)) && CacheFilled(StopMonitoring(m))
  {
  }

  lemma CheckPreserves(m: Monitor, conn: Connection, now: nat, stats: Stats, pct: string)
    requires Lifecycle(m) && CacheFilled(m)
    ensures var o := CheckStorage(m, conn, now, stats, pct);
      Lifecycle(o.monitor) && CacheFilled(o.monitor)
  {
  }

  /** Stopping a monitor that is not running changes nothing but the
      shared "started" flag, which it clears. */
  lemma StopWhenStopped(m: Monitor)
    requires Lifecycle(m) && !m.monitoring
    ensures StopMonitoring(m) == m.(monitoringStarted := false)
  {
  }

  /** Under the cache invariant a throttled check still returns a status. */
  lemma CheckAlwaysAnswers(m: Monitor, conn: Connection, now: nat, stats: Stats, pct: string)
    requires CacheFilled(m)
    ensures CheckStorage(m, conn, now, stats, pct).status.Some?
  {
  }

  // ------------------------------------------------------------ listeners

  /** `addListener`. */
  function AddListener(m: Monitor, l: nat): (r: Monitor)
    ensures r.listeners == m.listeners + [l]
    ensures r == m.(listeners := r.listeners)
  {
    m.(listeners := m.listeners + [l])
  }

  /** `removeListener`: every registration of `l` goes, the others stay in order. */
  function RemoveListener(m: Monitor, l: nat): (r: Monitor)
    ensures l !in r.listeners
    ensures forall x :: x != l ==> (x in r.listeners <==> x in m.listeners)
    ensures r == m.(listeners := r.listeners)
    ensures r.listeners == Lists.Filter(m.listeners, Other(l))
  {
    m.(listeners := Without(m.listeners, l))
  }

  function Other(l: nat): nat -> bool {
    (x: nat) => x != l
  }

  /** `listeners.filter((x) => x !== l)`. */
  function Without(xs: seq<nat>, l: nat): (r: seq<nat>)
    ensures l !in r
    ensures forall x :: x != l ==> (x in r <==> x in xs)
    ensures |r| <= |xs|
    ensures r == Lists.Filter(xs, Other(l))
  {
    if xs == [] then []
    else
      assert xs == [xs[0]] + xs[1..];
      Lists.FilterCons(xs[0], xs[1..], Other(l));
      if xs[0] == l then Without(xs[1..], l)
      else [xs[0]] + Without(xs[1..], l)
  }

  /** Removing what was just added restores a registry that did not hold it. */
  lemma {:induction false} AddThenRemove(m: Monitor, l: nat)
    requires l !in m.listeners
    ensures RemoveListener(AddListener(m, l), l) == m
  {
    WithoutAbsent(m.listeners, l);
    WithoutAppend(m.listeners, l);
  }

  lemma {:induction false} WithoutAbsent(xs: seq<nat>, l: nat)
    requires l !in xs
    ensures Without(xs, l) == xs
  {
    if xs != [] {
      WithoutAbsent(xs[1..], l);
    }
  }

  lemma {:induction false} WithoutAppend(xs: seq<nat>, l: nat)
    ensures Without(xs + [l], l) == Without(xs, l)
  {
    if xs == [] {
      assert [l][1..] == [];
    } else {
      assert (xs + [l])[1..] == xs[1..] + [l];
      WithoutAppend(xs[1..], l);
    }
  }
}
