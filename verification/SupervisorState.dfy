/**
 * scripts/bridge_recovery.py: the supervisor's state, how an observation changes it, and
 * what is decided from it. The class updates its fields as the source does; the value
 * `Saved` is what the state file holds, and what runs are stated about.
 */
module SupervisorState {
  import opened Basics

  const EXIT_BLE_STARTUP_FAILED := "76"
  const EXIT_STARTUP_FAILED := "79"
  const EXIT_CONFIGURATION := 78
  const MAX_STARTUP_FAILURE_STREAK := 6
  const STUCK_SECONDS := 600.0
  const PLAIN_RESTART_WINDOW_SECONDS := 1800.0
  const MAX_PLAIN_RESTARTS_PER_WINDOW := 1
  const MAX_PLAIN_RESTART_STREAK := 3
  const MAX_SEEN_INSTANCES := 32
  const MAX_EXIT_LOG := 64

  /** Settings.from_env; the ranges it checks are `Valid`. */
  datatype Settings = Settings(
    failuresToReset: nat, failureWindow: real, maxResetsShort: nat, shortWindow: real,
    maxResetsLong: nat, longWindow: real, stopTimeout: real, verifySeconds: real,
    healthyResetSeconds: real, pollInterval: real)
  {
    predicate Valid() {
      && 2 <= failuresToReset <= 10
      && 1800.0 <= failureWindow <= 86400.0
      && 1 <= maxResetsShort <= 5
      && 300.0 <= shortWindow <= 86400.0
      && maxResetsShort <= maxResetsLong
      && 1 <= maxResetsLong <= 10
      && 600.0 <= longWindow <= 604800.0
      && 5.0 <= stopTimeout <= 600.0
      && 30.0 <= verifySeconds <= 1800.0
      && 600.0 <= healthyResetSeconds <= 604800.0
      && pollInterval == 2.0
    }
  }

  /** A moment as the state file records it. */
  datatype Stamp = Stamp(boot: Option<string>, t: real, wall: real)

  /** One reading of every clock, and of the boot identifier if it can be read. */
  datatype Reading = Reading(boot: Option<string>, t: real, wall: real, monotonic: real) {
    function Mark(): Stamp {
      Stamp(boot, t, wall)
    }

    /** A later reading in the same boot; the wall clock may have been set. */
    predicate AtMost(later: Reading) {
      boot == later.boot && t <= later.t && monotonic <= later.monotonic && 0.0 <= later.wall
    }
  }

  /** _is_stamp: neither clock is negative. */
  predicate ValidStamp(s: Stamp) {
    0.0 <= s.t && 0.0 <= s.wall
  }

  predicate ValidStamps(stamps: seq<Stamp>) {
    forall i :: 0 <= i < |stamps| ==> ValidStamp(stamps[i])
  }

  predicate IsRecent(s: Stamp, now: Reading, window: real) {
    if now.boot.Some? && s.boot == now.boot then now.t - s.t < window else now.wall - s.wall < window
  }

  /** _recent. */
  function Recent(stamps: seq<Stamp>, now: Reading, window: real): (recent: seq<Stamp>) {
    if stamps == [] then []
    else
      var rest, last := Recent(stamps[..|stamps| - 1], now, window), stamps[|stamps| - 1];
      if IsRecent(last, now, window) then rest + [last] else rest
  }

  // ---- What is observed -----------------------------------------------------

  datatype ActiveState = Active | Inactive | Failed | OtherState

  /** The properties systemctl shows of a unit; `None` where a number is missing or unreadable. */
  datatype Properties = Properties(activeState: ActiveState, mainPid: Option<nat>, startLimitHit: bool,
      execMainStatus: Option<int>) {
    function Pid(): nat {
      if mainPid.Some? then mainPid.value else 0
    }

    /** _fully_stopped. */
    predicate FullyStopped() {
      mainPid == Some(0) && (activeState == Inactive || activeState == Failed)
    }

    /** The bridge gave up because of its configuration. */
    predicate Misconfigured() {
      activeState == Failed && execMainStatus == Some(EXIT_CONFIGURATION)
    }
  }

  datatype Phase = Ready | Discovering | Connecting | OtherPhase

  predicate IsInstanceId(s: string) {
    |s| == 32 && forall i :: 0 <= i < |s| ==> '0' <= s[i] <= '9' || 'a' <= s[i] <= 'f'
  }

  /** What parse_record accepts of the bridge's own record. */
  datatype Record = Record(instance: string, pid: nat, phase: Phase, updated: real, alive: bool, mqttReconnects: nat) {
    predicate Valid() {
      IsInstanceId(instance) && 1 <= pid
    }
  }

  /** trusted_record. */
  function Trusted(record: Option<Record>, unit: Properties): (trusted: Option<Record>) {
    if record.Some? && record.value.alive && record.value.pid == unit.Pid() then record else None
  }

  function TrustedInstance(record: Option<Record>, unit: Properties): (instance: Option<string>) {
    var trusted := Trusted(record, unit);
    if trusted.Some? then Some(trusted.value.instance) else None
  }

  /** The instance of a trusted record in phase ready. */
  function ReadyInstance(record: Option<Record>, unit: Properties): (instance: Option<string>) {
    var trusted := Trusted(record, unit);
    if trusted.Some? && trusted.value.phase == Ready then Some(trusted.value.instance) else None
  }

  datatype ExitCode = Exited | Killed | Dumped

  /** One bridge exit as systemd reported it. */
  datatype Exit = Exit(stamp: Stamp, code: ExitCode, status: string) {
    predicate IsBleStartup() {
      code == Exited && status == EXIT_BLE_STARTUP_FAILED
    }

    predicate IsStartup() {
      code == Exited && (status == EXIT_BLE_STARTUP_FAILED || status == EXIT_STARTUP_FAILED)
    }
  }

  predicate ValidExits(exits: seq<Exit>) {
    forall i :: 0 <= i < |exits| ==> ValidStamp(exits[i].stamp)
  }

  function StartupExits(exits: seq<Exit>): (n: nat) {
    if exits == [] then 0
    else StartupExits(exits[..|exits| - 1]) + if exits[|exits| - 1].IsStartup() then 1 else 0
  }

  function BleStamps(exits: seq<Exit>): (stamps: seq<Stamp>) {
    if exits == [] then []
    else BleStamps(exits[..|exits| - 1]) + if exits[|exits| - 1].IsBleStartup() then [exits[|exits| - 1].stamp] else []
  }

  // ---- The state --------------------------------------------------------------

  datatype Saved = Saved(
    bleFailures: seq<Stamp>, resets: seq<Stamp>, plainRestarts: seq<Stamp>,
    plainRestartStreak: nat, startupFailureStreak: nat,
    readyInstance: string, readySince: Option<Stamp>, stuckCounted: seq<string>, mqttReconnects: nat,
    recoveryFailed: bool, terminalStopPending: bool, reason: string, lastResult: string)

  const NEW_STATE := Saved([], [], [], 0, 0, "", None, [], 0, false, false, "none", "none")

  /** What the `reset` command saves. */
  const OPERATOR_RESET := NEW_STATE.(lastResult := "operator_reset")

  /** Fold the exits, then forget what is no longer recent. */
  function Pruned(s: Saved, exits: seq<Exit>, now: Reading, cfg: Settings): Saved {
    s.(startupFailureStreak := s.startupFailureStreak + StartupExits(exits),
       bleFailures := Recent(s.bleFailures + BleStamps(exits), now, cfg.failureWindow),
       resets := Recent(s.resets, now, cfg.longWindow),
       plainRestarts := Recent(s.plainRestarts, now, PLAIN_RESTART_WINDOW_SECONDS))
  }

  /** The last 32 of them. */
  function LastSeen(instances: seq<string>): (last: seq<string>)
    ensures |last| <= MAX_SEEN_INSTANCES
  {
    if |instances| <= MAX_SEEN_INSTANCES then instances else instances[|instances| - MAX_SEEN_INSTANCES..]
  }

  function SeenReady(s: Saved, instance: string, now: Reading, cfg: Settings): Saved {
    var fed := s.(bleFailures := [], plainRestartStreak := 0, startupFailureStreak := 0);
    if s.readyInstance != instance || s.readySince.None? then
      fed.(readyInstance := instance, readySince := Some(now.Mark()))
    else if !s.terminalStopPending && !IsRecent(s.readySince.value, now, cfg.healthyResetSeconds) then
      fed.(recoveryFailed := false, reason := "none")
    else fed
  }

  /** One stamp, this many times. */
  function Repeated(stamp: Stamp, n: nat): (stamps: seq<Stamp>)
    ensures |stamps| == n && forall i :: 0 <= i < n ==> stamps[i] == stamp
  {
    seq(n, _ => stamp)
  }

  predicate CountsAsStuck(s: Saved, r: Record, now: Reading) {
    && (r.phase == Discovering || r.phase == Connecting)
    && now.monotonic - r.updated > STUCK_SECONDS
    && r.instance !in s.stuckCounted
  }

  function SeenUnready(s: Saved, r: Record, now: Reading, cfg: Settings): Saved {
    var unready := s.(readyInstance := "", readySince := None);
    if !CountsAsStuck(s, r, now) then unready
    else
      unready.(stuckCounted := LastSeen(s.stuckCounted + [r.instance]),
               bleFailures := s.bleFailures + Repeated(now.Mark(), cfg.failuresToReset))
  }

  /** What an observation makes of a state; `State.Observe` does this in place. */
  function Observed(s: Saved, unit: Properties, record: Option<Record>, exits: seq<Exit>, now: Reading,
      cfg: Settings): Saved {
    var pruned := Pruned(s, exits, now, cfg);
    match Trusted(record, unit)
    case None => pruned.(readyInstance := "", readySince := None)
    case Some(r) =>
      var counted := pruned.(mqttReconnects := r.mqttReconnects);
      if r.phase == Ready then SeenReady(counted, r.instance, now, cfg) else SeenUnready(counted, r, now, cfg)
  }

  datatype Action = Nothing | Recover | Restart | Latch | Stop

  datatype Decision = Decision(action: Action, reason: string)

  /** The budget part of decide. */
  predicate ResetAllowed(s: Saved, now: Reading, cfg: Settings) {
    && |Recent(s.resets, now, cfg.shortWindow)| < cfg.maxResetsShort
    && |Recent(s.resets, now, cfg.longWindow)| < cfg.maxResetsLong
  }

  /** decide, once the state is latched. */
  function DecideLatched(s: Saved, unit: Properties, ready: bool): Decision {
    if s.terminalStopPending && !unit.Misconfigured() && !ready then Decision(Stop, "recovery_failed")
    else Decision(Nothing, "recovery_failed")
  }

  function Decide(s: Saved, unit: Properties, record: Option<Record>, now: Reading, cfg: Settings): Decision {
    var ready := ReadyInstance(record, unit).Some?;
    if s.recoveryFailed then DecideLatched(s, unit, ready)
    else if unit.Misconfigured() then Decision(Nothing, "configuration_error")
    else if ready then Decision(Nothing, "bridge_ready")
    else if s.startupFailureStreak >= MAX_STARTUP_FAILURE_STREAK
        then Decision(Latch, "startup_failure_budget_exhausted")
    else if |s.bleFailures| >= cfg.failuresToReset then
      (if ResetAllowed(s, now, cfg) then Decision(Recover, "repeated_ble_failure")
          else Decision(Latch, "budget_exhausted"))
    else if unit.activeState != Failed then Decision(Nothing, "no_repeated_ble_failure")
    else if s.plainRestartStreak >= MAX_PLAIN_RESTART_STREAK then Decision(Latch, "bridge_keeps_failing")
    else if |s.plainRestarts| >= MAX_PLAIN_RESTARTS_PER_WINDOW
        then Decision(Nothing, "bridge_failed_restart_budget_used")
    else Decision(Restart, "bridge_failed")
  }

  /** What `fail` and a latching decision make of the state. */
  function Latched(s: Saved, reason: string): Saved {
    s.(recoveryFailed := true, terminalStopPending := true, reason := reason, lastResult := "recovery_failed")
  }

  class State {
    var bleFailures: seq<Stamp>
    var resets: seq<Stamp>
    var plainRestarts: seq<Stamp>
    var plainRestartStreak: nat
    var startupFailureStreak: nat
    var readyInstance: string
    var readySince: Option<Stamp>
    var stuckCounted: seq<string>
    var mqttReconnects: nat
    var recoveryFailed: bool
    var terminalStopPending: bool
    var reason: string
    var lastResult: string

    /** What saving it writes. */
    function View(): Saved
      reads this
    {
      Saved(bleFailures, resets, plainRestarts, plainRestartStreak, startupFailureStreak, readyInstance, readySince,
            stuckCounted, mqttReconnects, recoveryFailed, terminalStopPending, reason, lastResult)
    }

    constructor (s: Saved)
      ensures View() == s
    {
      bleFailures, resets, plainRestarts := s.bleFailures, s.resets, s.plainRestarts;
      plainRestartStreak, startupFailureStreak := s.plainRestartStreak, s.startupFailureStreak;
      readyInstance, readySince := s.readyInstance, s.readySince;
      stuckCounted, mqttReconnects := s.stuckCounted, s.mqttReconnects;
      recoveryFailed, terminalStopPending := s.recoveryFailed, s.terminalStopPending;
      reason, lastResult := s.reason, s.lastResult;
    }

    /** The loop of observe over the exits. */
    method CountExits(exits: seq<Exit>)
      modifies this`startupFailureStreak, this`bleFailures
      ensures startupFailureStreak == old(startupFailureStreak) + StartupExits(exits)
      ensures bleFailures == old(bleFailures) + BleStamps(exits)
    {
      for i := 0 to |exits|
        invariant startupFailureStreak == old(startupFailureStreak) + StartupExits(exits[..i])
        invariant bleFailures == old(bleFailures) + BleStamps(exits[..i])
      {
        assert exits[..i + 1][..i] == exits[..i];
        if exits[i].IsStartup() {
          startupFailureStreak := startupFailureStreak + 1;
        }
        if exits[i].IsBleStartup() {
          bleFailures := bleFailures + [exits[i].stamp];
        }
      }
      assert exits[..|exits|] == exits;
    }

    method SeeReady(instance: string, now: Reading, cfg: Settings)
      modifies this
      ensures View() == SeenReady(old(View()), instance, now, cfg)
    {
      bleFailures := [];
      plainRestartStreak := 0;
      startupFailureStreak := 0;
      if readyInstance != instance || readySince.None? {
        readyInstance := instance;
        readySince := Some(now.Mark());
      } else if !terminalStopPending && !IsRecent(readySince.value, now, cfg.healthyResetSeconds) {
        recoveryFailed := false;
        reason := "none";
      }
    }

    method SeeUnready(r: Record, now: Reading, cfg: Settings)
      modifies this
      ensures View() == SeenUnready(old(View()), r, now, cfg)
    {
      readyInstance, readySince := "", None;
      if CountsAsStuck(View(), r, now) {
        stuckCounted := LastSeen(stuckCounted + [r.instance]);
        bleFailures := bleFailures + Repeated(now.Mark(), cfg.failuresToReset);
      }
    }

    method Prune(exits: seq<Exit>, now: Reading, cfg: Settings)
      modifies this
      ensures View() == Pruned(old(View()), exits, now, cfg)
    {
      CountExits(exits);
      bleFailures := Recent(bleFailures, now, cfg.failureWindow);
      resets := Recent(resets, now, cfg.longWindow);
      plainRestarts := Recent(plainRestarts, now, PLAIN_RESTART_WINDOW_SECONDS);
    }

    method Observe(unit: Properties, record: Option<Record>, exits: seq<Exit>, now: Reading, cfg: Settings)
      modifies this
      ensures View() == Observed(old(View()), unit, record, exits, now, cfg)
    {
      Prune(exits, now, cfg);
      var trusted := Trusted(record, unit);
      if trusted.None? {
        readyInstance, readySince := "", None;
        return;
      }
      mqttReconnects := trusted.value.mqttReconnects;
      if trusted.value.phase == Ready {
        SeeReady(trusted.value.instance, now, cfg);
      } else {
        SeeUnready(trusted.value, now, cfg);
      }
    }

    /** Latch the failure and ask for the terminal stop. */
    method Fail(why: string)
      modifies this
      ensures View() == Latched(old(View()), why)
    {
      recoveryFailed := true;
      terminalStopPending := true;
      reason := why;
      lastResult := "recovery_failed";
    }
  }
}
