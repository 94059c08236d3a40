/**
 * scripts/bridge_recovery.py, run_once and what it calls, as a machine over its effects.
 *
 * One step is one thing the outside can see or be hit between: a look at the bridge, a
 * save, a command, a poll, a timeout. A crash or a reboot may fall between any two steps,
 * exits may be recorded and time may pass at any point, and the service manager answers as
 * it likes. A pass lives in `mem`; only `disk` and `exits` survive it. `History` is what
 * the promises are about; apart from which boot identifiers are taken, nothing a step does
 * to the rest of the machine depends on it.
 */
module SupervisorMachine {
  import opened Basics
  import opened SupervisorState

  datatype Command = StopBridge | StopForGood | StartBridge | ResetFailed | RestartBluetooth

  /** What a pass has done so far, in order, and what it was shown. */
  datatype Effect =
    | Charged
    | Did(command: Command, ok: bool)
    | SawStopped(shown: Properties)
    | SawBluetooth(shown: Properties)
    | SawLimit(shown: Properties)
    | SawReady(shown: Properties, record: Record)

  /** All that a look has before it: the unit, the record, the exits it consumes, and the clocks. */
  datatype Glance = Glance(unit: Properties, record: Option<Record>, exits: seq<Exit>, clock: Reading) {
    /** The record is alive and of the process systemd shows. */
    predicate Trusts(instance: string) {
      && record.Some? && record.value.alive && unit.mainPid == Some(record.value.pid)
      && record.value.instance == instance
    }

    predicate SawReady() {
      record.Some? && Trusts(record.value.instance) && record.value.phase == Ready
    }

    predicate Misconfigured() {
      unit.activeState == Failed && unit.execMainStatus == Some(78)
    }
  }

  /** What passes have left behind, in order; a pass's notes are saved together with its state. */
  datatype Note =
    | Sighting(ready: Option<string>, startupExits: nat, evidence: seq<Stamp>, at: Stamp, seen: Glance)
    | Recovered
    | Restarted(at: Stamp)
    | CutShort

  datatype Pc =
    | Idle
    | Choosing(unit: Properties, record: Option<Record>)
    | Saving(after: Pc)
    | ResettingPlain | StartingPlain
    | Charging | Stopping | AwaitStopped | Dropping | RestartingBluetooth | AwaitBluetooth
    | CheckLimit | ResettingLimit | Starting | Verifying | Rescuing
    | StoppingForGood | AwaitStoppedForGood

  datatype History = History(
    boots: set<string>, charges: seq<Stamp>, chargeCount: nat, bluetoothRestarts: nat,
    log: seq<Note>, unsaved: seq<Note>, script: seq<Effect>, beganLatched: bool, beganPending: bool, seen: Glance)

  datatype Machine = Machine(
    disk: Saved, exits: seq<Exit>, now: Reading, pc: Pc, mem: Saved, previous: Option<string>, h: History)

  datatype Event =
    | Elapse(now: Reading)
    | RecordExit(code: ExitCode, status: string)
    | Look(unit: Properties, record: Option<Record>)
    | Choose
    | Save
    | Charge
    | Command(ok: bool)
    | Poll(shown: Option<Properties>, record: Option<Record>)
    | TimeOut
    | DropExits
    | Crash
    | Reboot(now: Reading)
    | OperatorReset

  /** _write_exit_log keeps the last 64 exits. */
  function LastExits(exits: seq<Exit>): (last: seq<Exit>)
    ensures |last| <= MAX_EXIT_LOG
  {
    if |exits| <= MAX_EXIT_LOG then exits else exits[|exits| - MAX_EXIT_LOG..]
  }

  function CommandAt(pc: Pc): Option<Command> {
    match pc
    case ResettingPlain => Some(ResetFailed)
    case StartingPlain => Some(StartBridge)
    case Stopping => Some(StopBridge)
    case RestartingBluetooth => Some(RestartBluetooth)
    case ResettingLimit => Some(ResetFailed)
    case Starting => Some(StartBridge)
    case Rescuing => Some(StartBridge)
    case StoppingForGood => Some(StopForGood)
    case _ => None
  }

  predicate Waits(pc: Pc) {
    pc == AwaitStopped || pc == AwaitBluetooth || pc == Verifying || pc == AwaitStoppedForGood
  }

  predicate ValidReading(now: Reading) {
    ValidStamp(now.Mark())
  }

  predicate ValidRecord(record: Option<Record>) {
    record.Some? ==> record.value.Valid()
  }

  predicate Enabled(m: Machine, e: Event) {
    match e
    case Elapse(now) => m.now.AtMost(now)
    case RecordExit(_, _) => true
    case Look(_, record) => m.pc == Idle && ValidRecord(record)
    case Choose => m.pc.Choosing?
    case Save => m.pc.Saving?
    case Charge => m.pc == Charging
    case Command(_) => CommandAt(m.pc).Some?
    case Poll(_, record) => (Waits(m.pc) || m.pc == CheckLimit) && ValidRecord(record)
    case TimeOut => Waits(m.pc)
    case DropExits => m.pc == Dropping
    case Crash => true
    case Reboot(now) => ValidReading(now) && (now.boot.Some? ==> now.boot.value !in m.h.boots)
    case OperatorReset => m.pc == Idle
  }

  function AsSet(boot: Option<string>): set<string> {
    if boot.Some? then {boot.value} else {}
  }

  // ---- Pieces of a step ---------------------------------------------------

  function GoTo(m: Machine, pc: Pc): Machine {
    m.(pc := pc)
  }

  function Add(m: Machine, effect: Effect): Machine {
    m.(h := m.h.(script := m.h.script + [effect]))
  }

  /** The state and the notes of the pass reach the file together. */
  function Persist(m: Machine): Machine {
    m.(disk := m.mem, h := m.h.(log := m.h.log + m.h.unsaved, unsaved := []))
  }

  /** `fail`: latch, then save, then go on at `after`. */
  function GiveUp(m: Machine, reason: string, after: Pc): Machine {
    m.(mem := Latched(m.mem, reason), pc := Saving(after))
  }

  function Result(m: Machine, result: string): Machine {
    m.(mem := m.mem.(lastResult := result), pc := Saving(Idle))
  }

  /** The BLE evidence a look adds: the exits 76 it consumes, and a stuck instance it sees for the first time. */
  function NewEvidence(
    s: Saved, unit: Properties, record: Option<Record>, exits: seq<Exit>, now: Reading, cfg: Settings): seq<Stamp>
  {
    var trusted := Trusted(record, unit);
    BleStamps(exits)
    + if trusted.Some? && CountsAsStuck(s, trusted.value, now) then Repeated(now.Mark(), cfg.failuresToReset) else []
  }

  function SightingOf(
    s: Saved, unit: Properties, record: Option<Record>, exits: seq<Exit>, now: Reading, cfg: Settings): Note
  {
    Sighting(ReadyInstance(record, unit), StartupExits(exits), NewEvidence(s, unit, record, exits, now, cfg),
        now.Mark(), Glance(unit, record, exits, now))
  }

  function LookStep(cfg: Settings, m: Machine, unit: Properties, record: Option<Record>): Machine {
    m.(mem := Observed(m.disk, unit, record, m.exits, m.now, cfg), exits := [], pc := Choosing(unit, record),
       previous := None,
       h := m.h.(unsaved := [SightingOf(m.disk, unit, record, m.exits, m.now, cfg)],
                 script := [], beganLatched := m.disk.recoveryFailed, beganPending := m.disk.terminalStopPending,
                 seen := Glance(unit, record, m.exits, m.now)))
  }

  function ChooseStep(cfg: Settings, m: Machine): Machine
    requires m.pc.Choosing?
  {
    var d := Decide(m.mem, m.pc.unit, m.pc.record, m.now, cfg);
    match d.action
    case Nothing => GoTo(m, Saving(Idle))
    case Stop => GoTo(m, Saving(StoppingForGood))
    case Latch => GiveUp(m, d.reason, StoppingForGood)
    case Recover =>
      GoTo(m.(previous := TrustedInstance(m.pc.record, m.pc.unit)), Saving(Charging))
    case Restart =>
      m.(mem := m.mem.(plainRestarts := m.mem.plainRestarts + [m.now.Mark()],
          plainRestartStreak := m.mem.plainRestartStreak + 1),
         h := m.h.(unsaved := m.h.unsaved + [Restarted(m.now.Mark())]), pc := ResettingPlain)
  }

  /** The charge and its save, before the first action. */
  function ChargeStep(m: Machine): Machine {
    var charged := m.(mem := m.mem.(resets := m.mem.resets + [m.now.Mark()], lastResult := "in_progress"),
                      h := m.h.(charges := m.h.charges + [m.now.Mark()], chargeCount := m.h.chargeCount + 1));
    GoTo(Add(Persist(charged), Charged), Stopping)
  }

  function CommandStep(m: Machine, ok: bool): Machine
    requires CommandAt(m.pc).Some?
  {
    var did := Add(m, Did(CommandAt(m.pc).value, ok));
    match m.pc
    case ResettingPlain => if ok then GoTo(did, StartingPlain) else Result(did, "bridge_restart_failed")
    case StartingPlain => Result(did, if ok then "bridge_restarted" else "bridge_restart_failed")
    case Stopping => if ok then GoTo(did, AwaitStopped) else GiveUp(did, "service_manager_stop", StoppingForGood)
    case RestartingBluetooth =>
      var counted := did.(h := did.h.(bluetoothRestarts := did.h.bluetoothRestarts + 1));
      if ok then GoTo(counted, AwaitBluetooth) else GiveUp(counted, "service_manager_restart", Rescuing)
    case ResettingLimit => if ok then GoTo(did, Starting) else GiveUp(did, "service_manager_reset-failed", Rescuing)
    case Starting => if ok then GoTo(did, Verifying) else GiveUp(did, "service_manager_start", Rescuing)
    case Rescuing => GoTo(did, StoppingForGood)
    case StoppingForGood => GoTo(did, if ok then AwaitStoppedForGood else Idle)
  }

  /** recovered: a ready bridge, and not the one that was there before. */
  predicate SeesRecovered(m: Machine, unit: Option<Properties>, record: Option<Record>) {
    unit.Some? && ReadyInstance(record, unit.value).Some? && ReadyInstance(record, unit.value) != m.previous
  }

  function PollStep(m: Machine, unit: Option<Properties>, record: Option<Record>): Machine {
    match m.pc
    case AwaitStopped =>
      if unit.Some? && unit.value.FullyStopped() then GoTo(Add(m, SawStopped(unit.value)), Dropping) else m
    case AwaitBluetooth =>
      if unit.Some? && unit.value.activeState == Active then GoTo(Add(m, SawBluetooth(unit.value)), CheckLimit)
      else m
    case CheckLimit =>
      if unit.None? then GiveUp(m, "service_manager_show", Rescuing)
      else GoTo(Add(m, SawLimit(unit.value)), if unit.value.startLimitHit then ResettingLimit else Starting)
    case Verifying =>
      if !SeesRecovered(m, unit, record) then m
      else
        var seen := Add(m, SawReady(unit.value, record.value));
        Result(seen.(mem := m.mem.(bleFailures := [], startupFailureStreak := 0),
            h := seen.h.(unsaved := m.h.unsaved + [Recovered])),
               "recovered")
    case AwaitStoppedForGood =>
      if unit.Some? && unit.value.FullyStopped() then
        GoTo(Add(m, SawStopped(unit.value)).(mem := m.mem.(terminalStopPending := false)), Saving(Idle))
      else m
    case _ => m
  }

  function TimeOutStep(cfg: Settings, m: Machine): Machine {
    match m.pc
    case AwaitStopped => GiveUp(m, "bridge_stop_timeout", Rescuing)
    case AwaitBluetooth => GiveUp(m, "bluetooth_restart_timeout", Rescuing)
    case Verifying =>
      if |Recent(m.mem.resets, m.now, cfg.longWindow)| >= cfg.maxResetsLong
      then GiveUp(m, "verify_failed_budget_exhausted", StoppingForGood)
      else Result(m, "verify_failed")
    case _ => GoTo(m, Idle)
  }

  /** The pass is gone; a plain restart it had chosen may have happened without being saved. */
  function CrashStep(m: Machine): Machine {
    var lost := m.h.unsaved != [] && m.h.unsaved[|m.h.unsaved| - 1].Restarted?;
    m.(pc := Idle, h := m.h.(log := m.h.log + (if lost then [CutShort] else []), unsaved := []))
  }

  function Step(cfg: Settings, m: Machine, e: Event): Machine
    requires Enabled(m, e)
  {
    match e
    case Elapse(now) => m.(now := now)
    case RecordExit(code, status) => m.(exits := LastExits(m.exits + [Exit(m.now.Mark(), code, status)]))
    case Look(unit, record) => LookStep(cfg, m, unit, record)
    case Choose => ChooseStep(cfg, m)
    case Save => Persist(m).(pc := m.pc.after)
    case Charge => ChargeStep(m)
    case Command(ok) => CommandStep(m, ok)
    case Poll(unit, record) => PollStep(m, unit, record)
    case TimeOut => TimeOutStep(cfg, m)
    case DropExits => m.(exits := [], pc := RestartingBluetooth)
    case Crash => CrashStep(m)
    case Reboot(now) => CrashStep(m).(now := now, h := CrashStep(m).h.(boots := m.h.boots + AsSet(now.boot)))
    case OperatorReset => m.(disk := OPERATOR_RESET, h := m.h.(log := [], charges := []))
  }

  const NOTHING_SEEN := Glance(Properties(OtherState, None, false, None), None, [], Reading(None, 0.0, 0.0, 0.0))
  const NEW_HISTORY := History({}, [], 0, 0, [], [], [], false, false, NOTHING_SEEN)

  /** The boots these exits were recorded in. */
  function BootsOf(exits: seq<Exit>): (boots: set<string>) {
    set i | 0 <= i < |exits| && exits[i].stamp.boot.Some? :: exits[i].stamp.boot.value
  }

  /** A supervisor installed on a machine without a state file. */
  function Installed(now: Reading, exits: seq<Exit>): Machine {
    Machine(NEW_STATE, exits, now, Idle, NEW_STATE, None, NEW_HISTORY.(boots := AsSet(now.boot) + BootsOf(exits)))
  }

  ghost function Run(cfg: Settings, start: Machine, events: seq<Event>): Option<Machine> {
    if events == [] then Some(start)
    else
      var before, e := Run(cfg, start, events[..|events| - 1]), events[|events| - 1];
      if before.Some? && Enabled(before.value, e) then Some(Step(cfg, before.value, e)) else None
  }

  lemma RunGrows(cfg: Settings, start: Machine, events: seq<Event>, e: Event)
    requires Run(cfg, start, events).Some? && Enabled(Run(cfg, start, events).value, e)
    ensures Run(cfg, start, events + [e]) == Some(Step(cfg, Run(cfg, start, events).value, e))
  {
    assert (events + [e])[..|events|] == events;
  }

  /** The event ends the pass by itself: it returns, rather than crashing. */
  predicate Completes(cfg: Settings, m: Machine, e: Event)
    requires Enabled(m, e)
  {
    m.pc != Idle && !e.Crash? && !e.Reboot? && Step(cfg, m, e).pc == Idle
  }
}
