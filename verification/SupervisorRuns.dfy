/**
 * What every run of the supervisor keeps, whatever crashes, reboots, exits and service
 * manager answers it meets: the reset budget, the latch and its terminal stop, what clears
 * the latch, the startup and plain-restart bounds, and the order of commands.
 */
module SupervisorRuns {
  import opened Basics
  import opened SupervisorState
  import opened SupervisorMachine
  import opened SupervisorBudget

  // ---- What the notes of saved passes say -----------------------------------

  /** Startup exits since the last ready sighting or verified recovery. */
  ghost function StartupStreak(log: seq<Note>): (n: nat) {
    if log == [] then 0
    else
      var before := StartupStreak(log[..|log| - 1]);
      match log[|log| - 1]
      case Sighting(ready, exits, _, _, _) => if ready.Some? then 0 else before + exits
      case Recovered => 0
      case _ => before
  }

  /** Saved plain restarts since the last ready sighting. */
  ghost function PlainStreak(log: seq<Note>): (n: nat) {
    if log == [] then 0
    else
      var before := PlainStreak(log[..|log| - 1]);
      match log[|log| - 1]
      case Sighting(ready, _, _, _, _) => if ready.Some? then 0 else before
      case Restarted(_) => before + 1
      case _ => before
  }

  /** Passes since the last ready sighting that crashed with a plain restart not yet saved. */
  ghost function LostRestarts(log: seq<Note>): (n: nat) {
    if log == [] then 0
    else
      var before := LostRestarts(log[..|log| - 1]);
      match log[|log| - 1]
      case Sighting(ready, _, _, _, _) => if ready.Some? then 0 else before
      case CutShort => before + 1
      case _ => before
  }

  /** Plain restarts begun since the last ready sighting, saved or lost. */
  ghost function RestartsBegun(log: seq<Note>): (n: nat) {
    if log == [] then 0
    else
      var last := log[|log| - 1];
      if last.Sighting? && last.ready.Some? then 0
      else RestartsBegun(log[..|log| - 1]) + if last.Restarted? || last == CutShort then 1 else 0
  }

  /** What the latest saved sighting saw ready. */
  ghost function LatestReady(log: seq<Note>): (instance: Option<string>) {
    if log == [] then None
    else
      var last := log[|log| - 1];
      if last.Sighting? then last.ready else LatestReady(log[..|log| - 1])
  }

  /**
   * Every sighting from the k-th note on saw this instance ready, the k-th was at `at`, and the one
   * before it did not.
   */
  ghost predicate StreakFrom(log: seq<Note>, k: nat, instance: string, at: Stamp) {
    && k < |log| && log[k].Sighting? && log[k].at == at
    && (forall i :: k <= i < |log| && log[i].Sighting? ==> log[i].ready == Some(instance))
    && LatestReady(log[..k]) != Some(instance)
  }

  /** `since` is the start of the maximal streak of sightings of one ready instance. */
  ghost predicate Watched(log: seq<Note>, instance: string, since: Option<Stamp>) {
    if since.None? then LatestReady(log) == None
    else exists k: nat :: StreakFrom(log, k, instance, since.value)
  }

  /** The counters and the watch of a state are what the saved passes add up to. */
  ghost predicate Explains(log: seq<Note>, s: Saved) {
    && s.startupFailureStreak == StartupStreak(log)
    && s.plainRestartStreak == PlainStreak(log) <= MAX_PLAIN_RESTART_STREAK
    && Watched(log, s.readyInstance, s.readySince)
  }

  /** Nothing is left to save once a pass gives up on the bridge. */
  predicate Settled(pc: Pc) {
    pc == Idle || pc == Rescuing || pc == StoppingForGood || pc == AwaitStoppedForGood
  }

  ghost predicate LogInv(m: Machine) {
    && Explains(m.h.log, m.disk)
    && (Settled(m.pc) ==> m.h.unsaved == [])
    && (m.pc != Idle ==> Explains(m.h.log + m.h.unsaved, m.mem))
  }

  lemma NoteGrows(log: seq<Note>, n: Note)
    ensures (log + [n])[..|log|] == log
    ensures StartupStreak(log + [n]) ==
              match n
              case Sighting(ready, exits, _, _, _) => if ready.Some? then 0 else StartupStreak(log) + exits
              case Recovered => 0
              case _ => StartupStreak(log)
    ensures PlainStreak(log + [n]) ==
              if n.Sighting? && n.ready.Some? then 0 else PlainStreak(log) + if n.Restarted? then 1 else 0
    ensures LatestReady(log + [n]) == if n.Sighting? then n.ready else LatestReady(log)
  {
    assert (log + [n])[..|log|] == log;
  }

  lemma StreakEndsReady(log: seq<Note>, k: nat, instance: string, at: Stamp)
    requires StreakFrom(log, k, instance, at)
    ensures LatestReady(log) == Some(instance)
    decreases |log|
  {
    var n := |log| - 1;
    if !log[n].Sighting? {
      assert log[..n][..k] == log[..k];
      StreakEndsReady(log[..n], k, instance, at);
    }
  }

  lemma StreakGrows(log: seq<Note>, k: nat, instance: string, at: Stamp, n: Note)
    requires StreakFrom(log, k, instance, at) && (n.Sighting? ==> n.ready == Some(instance))
    ensures StreakFrom(log + [n], k, instance, at)
  {
    assert (log + [n])[..k] == log[..k];
  }

  lemma WatchGrows(log: seq<Note>, instance: string, since: Option<Stamp>, n: Note)
    requires Watched(log, instance, since)
    requires n.Sighting? ==> if since.Some? then n.ready == Some(instance) else n.ready.None?
    ensures Watched(log + [n], instance, since)
  {
    NoteGrows(log, n);
    if since.Some? {
      var k: nat :| StreakFrom(log, k, instance, since.value);
      StreakGrows(log, k, instance, since.value, n);
    }
  }

  lemma WatchStarts(log: seq<Note>, instance: string, since: Option<Stamp>, n: Note, next: string)
    requires Watched(log, instance, since) && n.Sighting? && n.ready == Some(next)
    requires instance != next || since.None?
    ensures Watched(log + [n], next, Some(n.at))
  {
    NoteGrows(log, n);
    if since.Some? {
      var k: nat :| StreakFrom(log, k, instance, since.value);
      StreakEndsReady(log, k, instance, since.value);
    }
    assert StreakFrom(log + [n], |log|, next, n.at);
  }

  /** Observing changes the state as the sighting changes the notes. */
  lemma SightingExplains(log: seq<Note>, s: Saved, unit: Properties, record: Option<Record>, exits: seq<Exit>,
      now: Reading, cfg: Settings)
    requires Explains(log, s)
    ensures Explains(log + [SightingOf(s, unit, record, exits, now, cfg)], Observed(s, unit, record, exits, now, cfg))
  {
    var n := SightingOf(s, unit, record, exits, now, cfg);
    NoteGrows(log, n);
    if n.ready.Some? {
      if s.readyInstance == n.ready.value && s.readySince.Some? {
        WatchGrows(log, s.readyInstance, s.readySince, n);
      } else {
        WatchStarts(log, s.readyInstance, s.readySince, n, n.ready.value);
      }
    }
  }

  lemma NeutralNoteExplains(log: seq<Note>, s: Saved, next: Saved, n: Note)
    requires Explains(log, s) && !n.Sighting?
    requires next.readyInstance == s.readyInstance && next.readySince == s.readySince
    requires next.startupFailureStreak == if n.Recovered? then 0 else s.startupFailureStreak
    requires next.plainRestartStreak
             == s.plainRestartStreak + (if n.Restarted? then 1 else 0) <= MAX_PLAIN_RESTART_STREAK
    ensures Explains(log + [n], next)
  {
    NoteGrows(log, n);
    WatchGrows(log, s.readyInstance, s.readySince, n);
  }

  // ---- What a pass owes at each point of it ---------------------------------

  /** The last command of the pass. */
  ghost function LastCommand(script: seq<Effect>): (command: Option<Command>) {
    if script == [] then None
    else if script[|script| - 1].Did? then Some(script[|script| - 1].command)
    else LastCommand(script[..|script| - 1])
  }

  /** A recovery stopped the bridge and has not tried to start it since. */
  ghost predicate OwesStart(script: seq<Effect>) {
    script != []
    && (script[|script| - 1] == Did(StopBridge, true)
        || (!(script[|script| - 1].Did? && script[|script| - 1].command == StartBridge)
            && OwesStart(script[..|script| - 1])))
  }

  /** The pass has only ever stopped the bridge for good. */
  ghost predicate OnlyStops(script: seq<Effect>) {
    forall i :: 0 <= i < |script| && script[i].Did? ==> script[i].command == StopForGood
  }

  /** The pass stopped the bridge for good, and then saw it fully stopped. */
  ghost predicate VerifiedStop(script: seq<Effect>) {
    |script| >= 2 && script[|script| - 2] == Did(StopForGood, true) && ShowsStopped(script[|script| - 1])
  }

  /** The unit was shown without a process, and not on its way to one. */
  ghost predicate ShowsStopped(e: Effect) {
    e.SawStopped? && e.shown.mainPid == Some(0) && (e.shown.activeState == Inactive || e.shown.activeState == Failed)
  }

  /** The reset is charged, and then the bridge is stopped. */
  ghost predicate ChargedStop(script: seq<Effect>) {
    |script| >= 2 && script[0] == Charged && script[1] == Did(StopBridge, true)
  }

  ghost predicate BridgeIsDown(script: seq<Effect>) {
    |script| >= 3 && ChargedStop(script) && ShowsStopped(script[2])
  }

  ghost predicate BluetoothIsUp(script: seq<Effect>) {
    && |script| >= 5 && BridgeIsDown(script) && script[3] == Did(RestartBluetooth, true)
    && script[4].SawBluetooth? && script[4].shown.activeState == Active
  }

  ghost predicate LimitIsKnown(script: seq<Effect>) {
    |script| >= 6 && BluetoothIsUp(script) && script[5].SawLimit?
  }

  /** The start limit was cleared exactly if the unit had hit it. */
  ghost predicate MayStart(script: seq<Effect>) {
    && LimitIsKnown(script)
    && if script[5].shown.startLimitHit then |script| >= 7 && script[6] == Did(ResetFailed, true) else |script| == 6
  }

  /** A recovery that has come this far did exactly this. */
  ghost predicate FollowsScript(pc: Pc, script: seq<Effect>) {
    match pc
    case Charging => script == []
    case Stopping => script == [Charged]
    case AwaitStopped => |script| == 2 && ChargedStop(script)
    case Dropping => |script| == 3 && BridgeIsDown(script)
    case RestartingBluetooth => |script| == 3 && BridgeIsDown(script)
    case AwaitBluetooth => |script| == 4 && BridgeIsDown(script) && script[3] == Did(RestartBluetooth, true)
    case CheckLimit => |script| == 5 && BluetoothIsUp(script)
    case ResettingLimit => |script| == 6 && LimitIsKnown(script) && script[5].shown.startLimitHit
    case Starting => |script| <= 7 && MayStart(script)
    case _ => true
  }

  /** Six startup exits in a row are latched, unless the bridge failed on its configuration. */
  ghost predicate Bounded(s: Saved, seen: Glance) {
    s.startupFailureStreak < 6 || s.recoveryFailed || seen.Misconfigured()
  }

  /** A latched pass has a stop to retry: one was pending, and nothing the look saw speaks against it. */
  ghost predicate MustRetry(h: History) {
    h.beganPending && !h.seen.SawReady() && !h.seen.Misconfigured()
  }

  /** The stop was commanded if it is still pending, and by a latched pass only if it had to be retried. */
  ghost predicate StopIsRetried(s: Saved, h: History) {
    && (s.terminalStopPending && !h.seen.SawReady() && !h.seen.Misconfigured() ==>
          LastCommand(h.script) == Some(StopForGood))
    && (h.beganLatched ==> (LastCommand(h.script) == Some(StopForGood) <==> MustRetry(h)))
  }

  predicate InRecovery(pc: Pc) {
    match pc
    case Charging | Stopping | AwaitStopped | Dropping | RestartingBluetooth | AwaitBluetooth
       | CheckLimit | ResettingLimit | Starting | Verifying | ResettingPlain | StartingPlain => true
    case _ => false
  }

  /** The pass neither began latched nor has latched. */
  ghost predicate Unlatched(m: Machine) {
    !m.disk.recoveryFailed && !m.mem.recoveryFailed && !m.h.beganLatched
  }

  ghost predicate ChoosingInv(m: Machine)
    requires m.pc.Choosing?
  {
    && m.h.script == [] && m.h.beganLatched == m.disk.recoveryFailed
    && (m.mem.recoveryFailed ==> m.h.beganLatched)
    && m.h.seen.Misconfigured() == m.pc.unit.Misconfigured()
    && m.mem.terminalStopPending == m.disk.terminalStopPending
    && (m.h.beganLatched && !m.mem.recoveryFailed ==> ReadyInstance(m.pc.record, m.pc.unit).Some?)
    && (ReadyInstance(m.pc.record, m.pc.unit).Some? ==> m.mem.startupFailureStreak == 0)
  }

  ghost predicate SavingInv(m: Machine)
    requires m.pc.Saving?
  {
    && Bounded(m.mem, m.h.seen)
    && match m.pc.after
       case Idle =>
         && !OwesStart(m.h.script)
         && (m.mem.recoveryFailed && !m.h.beganLatched ==> LastCommand(m.h.script) == Some(StopForGood))
         && (m.disk.terminalStopPending && !m.mem.terminalStopPending ==> VerifiedStop(m.h.script))
       case Charging => Unlatched(m)
       case Rescuing => m.mem.terminalStopPending && !m.h.beganLatched
       case StoppingForGood => m.mem.terminalStopPending && !OwesStart(m.h.script)
       case _ => false
  }

  /** What holds of a pass at each point of it. */
  ghost predicate PassInv(m: Machine) {
    && (m.disk.terminalStopPending ==> m.disk.recoveryFailed)
    && (m.pc != Idle ==> m.mem.terminalStopPending ==> m.mem.recoveryFailed)
    && (m.pc != Idle && m.h.beganLatched ==> OnlyStops(m.h.script))
    && match m.pc
       case Idle => true
       case Choosing(_, _) => ChoosingInv(m)
       case Saving(_) => SavingInv(m)
       case Rescuing => m.disk == m.mem && m.mem.terminalStopPending && !m.h.beganLatched
       case StoppingForGood => m.disk == m.mem && m.mem.terminalStopPending && !OwesStart(m.h.script)
       case AwaitStoppedForGood =>
         && m.disk == m.mem && m.mem.terminalStopPending && !OwesStart(m.h.script)
         && m.h.script != [] && m.h.script[|m.h.script| - 1] == Did(StopForGood, true)
       case Verifying => Unlatched(m) && Bounded(m.mem, m.h.seen) && !OwesStart(m.h.script)
       case ResettingPlain => Unlatched(m) && Bounded(m.mem, m.h.seen) && m.h.script == []
       case StartingPlain => Unlatched(m) && Bounded(m.mem, m.h.seen) && m.h.script == [Did(ResetFailed, true)]
       case _ => Unlatched(m) && Bounded(m.mem, m.h.seen)
  }

  /** A recovery has done what brings it where it is, and nothing else. */
  ghost predicate ScriptInv(m: Machine) {
    && (m.pc.Choosing? || m.pc == Saving(Charging) ==> m.h.script == [])
    && FollowsScript(m.pc, m.h.script)
  }

  /** A pending stop is being retried, or need not be. */
  ghost predicate RetryInv(m: Machine) {
    match m.pc
    case Choosing(unit, record) =>
      && m.h.beganPending == m.mem.terminalStopPending
      && m.h.seen.SawReady() == ReadyInstance(record, unit).Some?
    case Saving(after) =>
      if after == Idle then StopIsRetried(m.mem, m.h)
      else after == StoppingForGood && m.h.beganLatched ==> MustRetry(m.h)
    case StoppingForGood => m.h.beganLatched ==> MustRetry(m.h)
    case AwaitStoppedForGood => m.h.beganLatched ==> MustRetry(m.h)
    case _ => true
  }

  /** A latch the pass has cleared was cleared by watching one instance long enough, with no stop pending. */
  ghost predicate Outwatched(cfg: Settings, m: Machine) {
    && !m.disk.terminalStopPending
    && m.mem.readySince.Some?
    && |m.h.unsaved| == 1 && m.h.unsaved[0].Sighting? && m.h.unsaved[0].ready == Some(m.mem.readyInstance)
    && Apart(m.mem.readySince.value, m.h.unsaved[0].at, cfg.healthyResetSeconds)
  }

  /** At least this long passed between two stamps, by the boot clock within one boot and the wall clock otherwise. */
  ghost predicate Apart(first: Stamp, second: Stamp, seconds: real) {
    if second.boot.Some? && first.boot == second.boot then second.t - first.t >= seconds
        else second.wall - first.wall >= seconds
  }

  ghost predicate ClearInv(cfg: Settings, m: Machine) {
    m.pc != Idle && m.disk.recoveryFailed && !m.mem.recoveryFailed ==> Outwatched(cfg, m)
  }

  /** The charge of this recovery has not been spent yet. */
  predicate Unspent(pc: Pc) {
    pc == Stopping || pc == AwaitStopped || pc == Dropping || pc == RestartingBluetooth
  }

  /** The last charge is in the file. */
  ghost predicate ChargeIsSaved(m: Machine) {
    && m.h.charges != [] && m.disk.resets != []
    && m.h.charges[|m.h.charges| - 1] == m.disk.resets[|m.disk.resets| - 1]
  }

  /** A recovery under way may still spend its charge; a verified one saw a new instance ready. */
  ghost predicate RecoveryInv(m: Machine) {
    && m.h.bluetoothRestarts + (if Unspent(m.pc) then 1 else 0) <= m.h.chargeCount
    && (Unspent(m.pc) ==> ChargeIsSaved(m))
    && (m.pc == ResettingPlain || m.pc == StartingPlain ==>
          m.h.unsaved != [] && m.h.unsaved[|m.h.unsaved| - 1].Restarted?)
    && NewInstanceInv(m)
  }

  ghost predicate NewInstanceInv(m: Machine) {
    && (m.pc.Choosing? ==> Names(TrustedInstance(m.pc.record, m.pc.unit), m.h.seen))
    && (Recovering(m.pc) ==> Names(m.previous, m.h.seen))
    && (Recovered in m.h.unsaved ==> m.pc == Saving(Idle) && SawNew(m.h.script, m.h.seen))
  }

  /** The instance of the record that the look trusted, if it trusted one. */
  ghost predicate Names(instance: Option<string>, seen: Glance) {
    forall i :: instance == Some(i) <==> seen.Trusts(i)
  }

  /**
   * The last thing the pass saw was a ready record that is alive and of the process systemd
   * shows, from an instance other than the one its own look had trusted.
   */
  ghost predicate SawNew(script: seq<Effect>, seen: Glance) {
    script != []
    && var last := script[|script| - 1];
       && last.SawReady? && last.record.alive && last.shown.mainPid == Some(last.record.pid)
       && last.record.phase == Ready && !seen.Trusts(last.record.instance)
  }

  /** On the way to a new instance, from the decision on. */
  predicate Recovering(pc: Pc) {
    pc == Saving(Charging) || (InRecovery(pc) && pc != ResettingPlain && pc != StartingPlain)
  }

  ghost predicate Inv(cfg: Settings, m: Machine) {
    && BudgetInv(cfg, LedgerOf(m)) && LogInv(m) && PassInv(m) && ClearInv(cfg, m) && RecoveryInv(m)
    && ScriptInv(m) && RetryInv(m)
  }

  // ---- Every step keeps it ---------------------------------------------------

  lemma LookKeepsLog(cfg: Settings, m: Machine, unit: Properties, record: Option<Record>)
    requires LogInv(m)
    ensures LogInv(LookStep(cfg, m, unit, record))
  {
    SightingExplains(m.h.log, m.disk, unit, record, m.exits, m.now, cfg);
  }

  lemma LookKeepsPass(cfg: Settings, m: Machine, unit: Properties, record: Option<Record>)
    requires PassInv(m) && ValidRecord(record)
    ensures PassInv(LookStep(cfg, m, unit, record))
  {
  }

  lemma LookKeepsClear(cfg: Settings, m: Machine, unit: Properties, record: Option<Record>)
    ensures ClearInv(cfg, LookStep(cfg, m, unit, record))
  {
  }

  lemma ChooseKeepsLog(cfg: Settings, m: Machine)
    requires LogInv(m) && m.pc.Choosing?
    ensures LogInv(ChooseStep(cfg, m))
  {
    var n := ChooseStep(cfg, m);
    if Decide(m.mem, m.pc.unit, m.pc.record, m.now, cfg).action == Restart {
      NeutralNoteExplains(m.h.log + m.h.unsaved, m.mem, n.mem, Restarted(m.now.Mark()));
      assert n.h.log + n.h.unsaved == (m.h.log + m.h.unsaved) + [Restarted(m.now.Mark())];
    }
  }

  /** A choice notes at most a plain restart, and touches no file and no failure. */
  lemma ChoiceIsNoted(cfg: Settings, m: Machine)
    requires m.pc.Choosing?
    ensures var n := ChooseStep(cfg, m);
            && n.disk == m.disk && n.now == m.now && n.exits == m.exits
            && n.h.log == m.h.log && n.h.boots == m.h.boots && n.mem.bleFailures == m.mem.bleFailures
            && (n.h.unsaved == m.h.unsaved || n.h.unsaved == m.h.unsaved + [Restarted(m.now.Mark())])
  {
  }

  lemma ChooseKeepsPass(cfg: Settings, m: Machine)
    requires PassInv(m) && m.pc.Choosing?
    ensures PassInv(ChooseStep(cfg, m))
  {
    if m.mem.recoveryFailed {
      LatchedChoiceKeepsPass(cfg, m);
    } else {
      UnlatchedChoiceKeepsPass(cfg, m);
    }
  }

  lemma LatchedChoiceKeepsPass(cfg: Settings, m: Machine)
    requires PassInv(m) && m.pc.Choosing? && m.mem.recoveryFailed
    ensures PassInv(ChooseStep(cfg, m))
  {
  }

  lemma UnlatchedChoiceKeepsPass(cfg: Settings, m: Machine)
    requires PassInv(m) && m.pc.Choosing? && !m.mem.recoveryFailed
    ensures PassInv(ChooseStep(cfg, m))
  {
  }

  lemma ChooseKeepsRest(cfg: Settings, m: Machine)
    requires ClearInv(cfg, m) && RecoveryInv(m) && m.pc.Choosing?
    requires m.disk.recoveryFailed && !m.mem.recoveryFailed ==> ReadyInstance(m.pc.record, m.pc.unit).Some?
    ensures var n := ChooseStep(cfg, m); ClearInv(cfg, n) && RecoveryInv(n)
  {
  }

  lemma SaveKeepsRest(cfg: Settings, m: Machine)
    requires LogInv(m) && PassInv(m) && ClearInv(cfg, m) && RecoveryInv(m) && m.pc.Saving?
    ensures var n := Step(cfg, m, Save); LogInv(n) && PassInv(n) && ClearInv(cfg, n) && RecoveryInv(n)
  {
    var n := Step(cfg, m, Save);
    assert n.h.log + n.h.unsaved == m.h.log + m.h.unsaved;
  }

  lemma ChargeKeepsRest(cfg: Settings, m: Machine)
    requires LogInv(m) && PassInv(m) && RecoveryInv(m) && m.pc == Charging
    ensures var n := ChargeStep(m); LogInv(n) && PassInv(n) && ClearInv(cfg, n) && RecoveryInv(n)
  {
    var n := ChargeStep(m);
    assert n.h.log + n.h.unsaved == m.h.log + m.h.unsaved;
  }

  lemma ScriptGrows(script: seq<Effect>, e: Effect)
    ensures OwesStart(script + [e])
            == (e == Did(StopBridge, true) || (!(e.Did? && e.command == StartBridge) && OwesStart(script)))
    ensures LastCommand(script + [e]) == if e.Did? then Some(e.command) else LastCommand(script)
    ensures OnlyStops(script + [e]) == (OnlyStops(script) && (e.Did? ==> e.command == StopForGood))
  {
    assert (script + [e])[..|script|] == script;
    assert OnlyStops(script + [e]) ==> OnlyStops(script) by {
      assert forall i :: 0 <= i < |script| ==> (script + [e])[i] == script[i];
    }
    assert e.Did? && OnlyStops(script + [e]) ==> (script + [e])[|script|].command == StopForGood;
  }

  /** Nothing was stopped that was not started again, before a recovery's own stop. */
  lemma ShortScripts(ok: bool)
    ensures !OwesStart([]) && !OwesStart([Charged]) && !OwesStart([Charged, Did(StopBridge, false)])
    ensures !OwesStart([Did(ResetFailed, ok)])
  {
    assert [Charged][..0] == [];
    assert [Charged, Did(StopBridge, false)][..1] == [Charged];
    assert [Did(ResetFailed, ok)][..0] == [];
  }

  lemma RestartCommandKeepsPass(m: Machine, ok: bool)
    requires PassInv(m) && (m.pc == ResettingPlain || m.pc == StartingPlain)
    ensures PassInv(CommandStep(m, ok))
  {
    ScriptGrows(m.h.script, Did(CommandAt(m.pc).value, ok));
    ShortScripts(ok);
  }

  lemma StopCommandKeepsPass(m: Machine, ok: bool)
    requires PassInv(m) && m.pc == Stopping && m.h.script == [Charged]
    ensures PassInv(CommandStep(m, ok))
  {
    ScriptGrows(m.h.script, Did(StopBridge, ok));
    ShortScripts(ok);
  }

  lemma RecoverCommandKeepsPass(m: Machine, ok: bool)
    requires PassInv(m) && (m.pc == RestartingBluetooth || m.pc == ResettingLimit)
    ensures PassInv(CommandStep(m, ok))
  {
  }

  lemma StartCommandKeepsPass(m: Machine, ok: bool)
    requires PassInv(m) && m.pc == Starting
    ensures PassInv(CommandStep(m, ok))
  {
    ScriptGrows(m.h.script, Did(StartBridge, ok));
  }

  lemma LastCommandKeepsPass(m: Machine, ok: bool)
    requires PassInv(m) && (m.pc == Rescuing || m.pc == StoppingForGood)
    ensures PassInv(CommandStep(m, ok))
  {
    ScriptGrows(m.h.script, Did(CommandAt(m.pc).value, ok));
  }

  lemma CommandKeepsPass(m: Machine, ok: bool)
    requires PassInv(m) && CommandAt(m.pc).Some? && (m.pc == Stopping ==> m.h.script == [Charged])
    ensures PassInv(CommandStep(m, ok))
  {
    match m.pc
    case ResettingPlain => RestartCommandKeepsPass(m, ok);
    case StartingPlain => RestartCommandKeepsPass(m, ok);
    case Stopping => StopCommandKeepsPass(m, ok);
    case RestartingBluetooth => RecoverCommandKeepsPass(m, ok);
    case ResettingLimit => RecoverCommandKeepsPass(m, ok);
    case Starting => StartCommandKeepsPass(m, ok);
    case _ => LastCommandKeepsPass(m, ok);
  }

  lemma CommandKeepsLog(m: Machine, ok: bool)
    requires LogInv(m) && CommandAt(m.pc).Some?
    ensures LogInv(CommandStep(m, ok))
  {
  }

  lemma CommandKeepsRecovery(m: Machine, ok: bool)
    requires RecoveryInv(m) && CommandAt(m.pc).Some?
    ensures RecoveryInv(CommandStep(m, ok))
  {
  }

  /** While a pass acts, a latch on disk is a latch in memory. */
  lemma ActingKeepsClear(cfg: Settings, m: Machine, n: Machine)
    requires PassInv(m) && (CommandAt(m.pc).Some? || Waits(m.pc) || m.pc == CheckLimit)
    requires n.disk == m.disk && (m.mem.recoveryFailed ==> n.mem.recoveryFailed)
    ensures ClearInv(cfg, n)
  {
  }

  /** A command notes nothing, and touches no file, no failure and no restart. */
  lemma CommandIsUnnoted(m: Machine, ok: bool)
    requires CommandAt(m.pc).Some?
    ensures var n := CommandStep(m, ok);
            && n.disk == m.disk && n.now == m.now && n.exits == m.exits
            && n.h.log == m.h.log && n.h.unsaved == m.h.unsaved && n.h.boots == m.h.boots
            && n.mem.bleFailures == m.mem.bleFailures && n.mem.plainRestarts == m.mem.plainRestarts
  {
  }

  /** A poll notes at most a recovery. */
  lemma PollIsNoted(m: Machine, shown: Option<Properties>, record: Option<Record>)
    ensures var n := PollStep(m, shown, record);
            && n.disk == m.disk && n.now == m.now && n.exits == m.exits
            && n.h.log == m.h.log && n.h.boots == m.h.boots && n.mem.plainRestarts == m.mem.plainRestarts
            && (n.h.unsaved == m.h.unsaved || (m.pc == Verifying && n.h.unsaved == m.h.unsaved + [Recovered]))
  {
  }

  lemma PollKeepsPass(m: Machine, shown: Option<Properties>, record: Option<Record>)
    requires PassInv(m) && (m.pc == AwaitStopped || m.pc == AwaitBluetooth || m.pc == CheckLimit)
    ensures PassInv(PollStep(m, shown, record))
  {
  }

  lemma VerifyKeepsPass(m: Machine, shown: Option<Properties>, record: Option<Record>)
    requires PassInv(m) && m.pc == Verifying
    ensures PassInv(PollStep(m, shown, record))
  {
    if SeesRecovered(m, shown, record) {
      ScriptGrows(m.h.script, SawReady(shown.value, record.value));
    }
  }

  lemma LastPollKeepsPass(m: Machine, shown: Option<Properties>, record: Option<Record>)
    requires PassInv(m) && m.pc == AwaitStoppedForGood
    ensures PassInv(PollStep(m, shown, record))
  {
    if shown.Some? {
      ScriptGrows(m.h.script, SawStopped(shown.value));
    }
  }

  lemma VerifiedKeepsLog(m: Machine, shown: Option<Properties>, record: Option<Record>)
    requires LogInv(m) && m.pc == Verifying && SeesRecovered(m, shown, record)
    ensures LogInv(PollStep(m, shown, record))
  {
    var n, notes := PollStep(m, shown, record), m.h.log + m.h.unsaved;
    NeutralNoteExplains(notes, m.mem, n.mem, Recovered);
    assert n.h.log + n.h.unsaved == notes + [Recovered];
  }

  lemma PollKeepsLog(m: Machine, shown: Option<Properties>, record: Option<Record>)
    requires LogInv(m)
    ensures LogInv(PollStep(m, shown, record))
  {
    if m.pc == Verifying && SeesRecovered(m, shown, record) {
      VerifiedKeepsLog(m, shown, record);
    } else {
      var n := PollStep(m, shown, record);
      assert n.h.log == m.h.log && n.h.unsaved == m.h.unsaved && n.disk == m.disk;
      assert Settled(n.pc) ==> Settled(m.pc);
    }
  }

  lemma PollKeepsNewInstance(m: Machine, shown: Option<Properties>, record: Option<Record>)
    requires NewInstanceInv(m) && ValidRecord(record)
    ensures NewInstanceInv(PollStep(m, shown, record))
  {
  }

  lemma PollKeepsRecovery(m: Machine, shown: Option<Properties>, record: Option<Record>)
    requires RecoveryInv(m) && ValidRecord(record)
    ensures RecoveryInv(PollStep(m, shown, record))
  {
    PollKeepsNewInstance(m, shown, record);
  }

  lemma TimeOutKeepsFiles(cfg: Settings, m: Machine)
    requires Waits(m.pc)
    ensures var n := TimeOutStep(cfg, m);
            && n.disk == m.disk && n.exits == m.exits && n.now == m.now && n.h == m.h
            && n.mem.bleFailures == m.mem.bleFailures && n.mem.plainRestarts == m.mem.plainRestarts
  {
  }

  lemma TimeOutKeepsPass(cfg: Settings, m: Machine)
    requires PassInv(m) && Waits(m.pc)
    ensures PassInv(TimeOutStep(cfg, m))
  {
  }

  lemma TimeOutKeepsLog(cfg: Settings, m: Machine)
    requires LogInv(m) && Waits(m.pc)
    ensures LogInv(TimeOutStep(cfg, m))
  {
  }

  lemma TimeOutKeepsRecovery(cfg: Settings, m: Machine)
    requires RecoveryInv(m) && Waits(m.pc)
    ensures RecoveryInv(TimeOutStep(cfg, m))
  {
    var n := TimeOutStep(cfg, m);
    assert n.h == m.h && n.disk == m.disk && (n.pc == Idle || n.pc.Saving?) && !Recovering(n.pc);
  }

  lemma CrashKeepsRest(cfg: Settings, m: Machine)
    requires LogInv(m) && PassInv(m) && RecoveryInv(m)
    ensures var n := CrashStep(m); LogInv(n) && PassInv(n) && ClearInv(cfg, n) && RecoveryInv(n)
  {
    CrashKeepsLog(m);
  }

  lemma CrashKeepsLog(m: Machine)
    requires LogInv(m)
    ensures LogInv(CrashStep(m))
  {
    var n := CrashStep(m);
    NeutralNoteExplains(m.h.log, m.disk, m.disk, CutShort);
    assert n.h.log == m.h.log || n.h.log == m.h.log + [CutShort];
    assert Explains(n.h.log, n.disk);
  }

  // ---- The script and the retry, step by step ---------------------------------

  lemma LookKeepsScript(cfg: Settings, m: Machine, unit: Properties, record: Option<Record>)
    requires ValidRecord(record)
    ensures var n := LookStep(cfg, m, unit, record); ScriptInv(n) && RetryInv(n)
  {
  }

  lemma ChooseKeepsScript(cfg: Settings, m: Machine)
    requires ScriptInv(m) && m.pc.Choosing?
    ensures ScriptInv(ChooseStep(cfg, m))
  {
  }

  lemma ChooseKeepsRetry(cfg: Settings, m: Machine)
    requires PassInv(m) && RetryInv(m) && m.pc.Choosing?
    ensures RetryInv(ChooseStep(cfg, m))
  {
  }

  lemma SaveKeepsScript(cfg: Settings, m: Machine)
    requires PassInv(m) && ScriptInv(m) && RetryInv(m) && m.pc.Saving?
    ensures var n := Step(cfg, m, Save); ScriptInv(n) && RetryInv(n)
  {
  }

  lemma CommandKeepsScript(m: Machine, ok: bool)
    requires ScriptInv(m) && CommandAt(m.pc).Some?
    ensures ScriptInv(CommandStep(m, ok))
  {
    var n, e := CommandStep(m, ok), Did(CommandAt(m.pc).value, ok);
    if ok && (m.pc == Stopping || m.pc == RestartingBluetooth || m.pc == ResettingLimit) {
      RecoveryFollowsOn(m.pc, m.h.script, e);
    } else {
      assert ok || n.pc.Saving? || n.pc == Idle || n.pc == StoppingForGood;
    }
  }

  /** A command that succeeds takes a recovery from one point of its script to the next. */
  lemma RecoveryFollowsOn(pc: Pc, script: seq<Effect>, e: Effect)
    requires FollowsScript(pc, script)
    ensures pc == Stopping && e == Did(StopBridge, true) ==> FollowsScript(AwaitStopped, script + [e])
    ensures pc == RestartingBluetooth && e == Did(RestartBluetooth, true) ==>
              FollowsScript(AwaitBluetooth, script + [e])
    ensures pc == ResettingLimit && e == Did(ResetFailed, true) ==> FollowsScript(Starting, script + [e])
  {
  }

  lemma CommandKeepsRetry(m: Machine, ok: bool)
    requires PassInv(m) && RetryInv(m) && CommandAt(m.pc).Some?
    ensures RetryInv(CommandStep(m, ok))
  {
    ScriptGrows(m.h.script, Did(CommandAt(m.pc).value, ok));
  }

  lemma PollKeepsScript(m: Machine, shown: Option<Properties>, record: Option<Record>)
    requires ScriptInv(m) && (Waits(m.pc) || m.pc == CheckLimit)
    ensures ScriptInv(PollStep(m, shown, record))
  {
  }

  lemma PollKeepsRetry(m: Machine, shown: Option<Properties>, record: Option<Record>)
    requires PassInv(m) && RetryInv(m) && (Waits(m.pc) || m.pc == CheckLimit)
    ensures RetryInv(PollStep(m, shown, record))
  {
    if shown.Some? {
      ScriptGrows(m.h.script, SawStopped(shown.value));
    }
  }

  lemma TimeOutKeepsScript(cfg: Settings, m: Machine)
    requires PassInv(m) && ScriptInv(m) && RetryInv(m) && Waits(m.pc)
    ensures var n := TimeOutStep(cfg, m); ScriptInv(n) && RetryInv(n)
  {
  }

  lemma LookKeepsInv(cfg: Settings, m: Machine, unit: Properties, record: Option<Record>)
    requires Inv(cfg, m) && Enabled(m, Look(unit, record))
    ensures Inv(cfg, LookStep(cfg, m, unit, record))
  {
    LookKeepsBudget(cfg, m, unit, record);
    LookKeepsLog(cfg, m, unit, record);
    LookKeepsPass(cfg, m, unit, record);
    LookKeepsClear(cfg, m, unit, record);
    LookKeepsScript(cfg, m, unit, record);
  }

  lemma ChooseKeepsInv(cfg: Settings, m: Machine)
    requires Inv(cfg, m) && m.pc.Choosing?
    ensures Inv(cfg, ChooseStep(cfg, m))
  {
    ChooseKeepsBudget(cfg, m);
    ChooseKeepsLog(cfg, m);
    ChooseKeepsPass(cfg, m);
    ChooseKeepsRest(cfg, m);
    ChooseKeepsScript(cfg, m);
    ChooseKeepsRetry(cfg, m);
  }

  lemma SaveKeepsInv(cfg: Settings, m: Machine)
    requires Inv(cfg, m) && m.pc.Saving?
    ensures Inv(cfg, Step(cfg, m, Save))
  {
    SaveKeepsBudget(cfg, m);
    SaveKeepsRest(cfg, m);
    SaveKeepsScript(cfg, m);
  }

  lemma ChargeKeepsInv(cfg: Settings, m: Machine)
    requires Inv(cfg, m) && m.pc == Charging
    ensures Inv(cfg, ChargeStep(m))
  {
    ChargingKeepsBudget(cfg, LedgerOf(m));
    ChargeKeepsRest(cfg, m);
  }

  lemma CommandKeepsInv(cfg: Settings, m: Machine, ok: bool)
    requires Inv(cfg, m) && CommandAt(m.pc).Some?
    ensures Inv(cfg, CommandStep(m, ok))
  {
    var n := CommandStep(m, ok);
    CommandKeepsLedger(m, ok);
    SameLedgerKeepsBudget(cfg, LedgerOf(m), LedgerOf(n));
    CommandKeepsLog(m, ok);
    CommandKeepsPass(m, ok);
    CommandKeepsRecovery(m, ok);
    CommandKeepsScript(m, ok);
    CommandKeepsRetry(m, ok);
    ActingKeepsClear(cfg, m, n);
  }

  lemma AnyPollKeepsPass(m: Machine, shown: Option<Properties>, record: Option<Record>)
    requires PassInv(m) && (Waits(m.pc) || m.pc == CheckLimit)
    ensures PassInv(PollStep(m, shown, record))
  {
    match m.pc
    case Verifying => VerifyKeepsPass(m, shown, record);
    case AwaitStoppedForGood => LastPollKeepsPass(m, shown, record);
    case _ => PollKeepsPass(m, shown, record);
  }

  lemma PollKeepsInv(cfg: Settings, m: Machine, shown: Option<Properties>, record: Option<Record>)
    requires Inv(cfg, m) && (Waits(m.pc) || m.pc == CheckLimit) && ValidRecord(record)
    ensures Inv(cfg, PollStep(m, shown, record))
  {
    var n := PollStep(m, shown, record);
    PollKeepsLedger(m, shown, record);
    SameLedgerKeepsBudget(cfg, LedgerOf(m), LedgerOf(n));
    AnyPollKeepsPass(m, shown, record);
    PollKeepsLog(m, shown, record);
    PollKeepsRecovery(m, shown, record);
    PollKeepsScript(m, shown, record);
    PollKeepsRetry(m, shown, record);
    ActingKeepsClear(cfg, m, n);
  }

  lemma TimeOutKeepsBudget(cfg: Settings, m: Machine)
    requires BudgetInv(cfg, LedgerOf(m)) && Waits(m.pc)
    ensures BudgetInv(cfg, LedgerOf(TimeOutStep(cfg, m)))
  {
    TimeOutKeepsLedger(cfg, m);
    SameLedgerKeepsBudget(cfg, LedgerOf(m), LedgerOf(TimeOutStep(cfg, m)));
  }

  lemma TimeOutKeepsClear(cfg: Settings, m: Machine)
    requires PassInv(m) && Waits(m.pc)
    ensures ClearInv(cfg, TimeOutStep(cfg, m))
  {
    TimeOutKeepsFiles(cfg, m);
    ActingKeepsClear(cfg, m, TimeOutStep(cfg, m));
  }

  lemma TimeOutKeepsInv(cfg: Settings, m: Machine)
    requires Inv(cfg, m) && Waits(m.pc)
    ensures Inv(cfg, TimeOutStep(cfg, m))
  {
    TimeOutKeepsBudget(cfg, m);
    TimeOutKeepsClear(cfg, m);
    TimeOutKeepsLog(cfg, m);
    TimeOutKeepsPass(cfg, m);
    TimeOutKeepsRecovery(cfg, m);
    TimeOutKeepsScript(cfg, m);
  }

  lemma CrashKeepsInv(cfg: Settings, m: Machine)
    requires Inv(cfg, m)
    ensures Inv(cfg, CrashStep(m))
  {
    CrashKeepsRest(cfg, m);
  }

  lemma RebootKeepsInv(cfg: Settings, m: Machine, now: Reading)
    requires Inv(cfg, m) && Enabled(m, Reboot(now))
    ensures Inv(cfg, Step(cfg, m, Reboot(now)))
  {
    CrashKeepsRest(cfg, m);
    RebootKeepsBudget(cfg, LedgerOf(m), now);
  }

  lemma ResetKeepsInv(cfg: Settings, m: Machine)
    requires Inv(cfg, m) && m.pc == Idle
    ensures Inv(cfg, Step(cfg, m, OperatorReset))
  {
    NoChargesAreBudgeted(cfg, LedgerOf(Step(cfg, m, OperatorReset)));
  }

  lemma SurroundingsKeepPass(cfg: Settings, m: Machine, now: Reading, exits: seq<Exit>)
    requires LogInv(m) && PassInv(m) && ClearInv(cfg, m)
    ensures var n := m.(now := now, exits := exits); LogInv(n) && PassInv(n) && ClearInv(cfg, n)
  {
  }

  lemma SurroundingsKeepRecovery(m: Machine, now: Reading, exits: seq<Exit>)
    requires RecoveryInv(m) && ScriptInv(m) && RetryInv(m)
    ensures var n := m.(now := now, exits := exits); RecoveryInv(n) && ScriptInv(n) && RetryInv(n)
  {
  }

  lemma ElapseKeepsInv(cfg: Settings, m: Machine, now: Reading)
    requires Inv(cfg, m) && m.now.AtMost(now)
    ensures Inv(cfg, m.(now := now))
  {
    TimeKeepsBudget(cfg, LedgerOf(m), now);
    SurroundingsKeepPass(cfg, m, now, m.exits);
    SurroundingsKeepRecovery(m, now, m.exits);
    assert m.(now := now) == m.(now := now, exits := m.exits);
  }

  lemma ExitsKeepInv(cfg: Settings, m: Machine, exits: seq<Exit>)
    requires Inv(cfg, m)
    ensures Inv(cfg, m.(exits := exits))
  {
    SurroundingsKeepPass(cfg, m, m.now, exits);
    SurroundingsKeepRecovery(m, m.now, exits);
    assert LedgerOf(m.(exits := exits)) == LedgerOf(m);
  }

  lemma DroppingKeepsInv(cfg: Settings, m: Machine)
    requires Inv(cfg, m) && m.pc == Dropping
    ensures Inv(cfg, m.(exits := [], pc := RestartingBluetooth))
  {
  }

  /** What happens around a pass, or instead of one. */
  predicate Outside(e: Event) {
    e.Elapse? || e.RecordExit? || e.Crash? || e.Reboot? || e.OperatorReset?
  }

  lemma OutsideKeepsInv(cfg: Settings, m: Machine, e: Event)
    requires Inv(cfg, m) && Enabled(m, e) && Outside(e)
    ensures Inv(cfg, Step(cfg, m, e))
  {
    match e
    case Elapse(now) => ElapseKeepsInv(cfg, m, now);
    case RecordExit(_, _) => ExitsKeepInv(cfg, m, Step(cfg, m, e).exits);
    case Crash => CrashKeepsInv(cfg, m);
    case Reboot(now) => RebootKeepsInv(cfg, m, now);
    case OperatorReset => ResetKeepsInv(cfg, m);
  }

  lemma PassKeepsInv(cfg: Settings, m: Machine, e: Event)
    requires Inv(cfg, m) && Enabled(m, e) && !Outside(e)
    ensures Inv(cfg, Step(cfg, m, e))
  {
    match e
    case Look(unit, record) => LookKeepsInv(cfg, m, unit, record);
    case Choose => ChooseKeepsInv(cfg, m);
    case Save => SaveKeepsInv(cfg, m);
    case Charge => ChargeKeepsInv(cfg, m);
    case Command(ok) => CommandKeepsInv(cfg, m, ok);
    case Poll(shown, record) => PollKeepsInv(cfg, m, shown, record);
    case TimeOut => TimeOutKeepsInv(cfg, m);
    case DropExits => DroppingKeepsInv(cfg, m);
  }

  lemma StepKeepsInv(cfg: Settings, m: Machine, e: Event)
    requires Inv(cfg, m) && Enabled(m, e)
    ensures Inv(cfg, Step(cfg, m, e))
  {
    if Outside(e) {
      OutsideKeepsInv(cfg, m, e);
    } else {
      PassKeepsInv(cfg, m, e);
    }
  }

  lemma InstalledIsInv(cfg: Settings, now: Reading, exits: seq<Exit>)
    ensures Inv(cfg, Installed(now, exits))
  {
    NoChargesAreBudgeted(cfg, LedgerOf(Installed(now, exits)));
  }

  /** A run of a supervisor from its installation on. */
  ghost predicate Reaches(cfg: Settings, events: seq<Event>, m: Machine) {
    exists now: Reading, exits: seq<Exit> ::
      Run(cfg, Installed(now, exits), events) == Some(m) && ValidReading(now) && ValidExits(exits)
  }

  lemma {:induction false} RunKeepsInv(cfg: Settings, start: Machine, events: seq<Event>)
    requires Inv(cfg, start) && Run(cfg, start, events).Some?
    ensures Inv(cfg, Run(cfg, start, events).value)
  {
    if events != [] {
      var n := |events| - 1;
      RunKeepsInv(cfg, start, events[..n]);
      StepKeepsInv(cfg, Run(cfg, start, events[..n]).value, events[n]);
    }
  }

  lemma ReachableIsInv(cfg: Settings, events: seq<Event>, m: Machine)
    requires Reaches(cfg, events, m)
    ensures Inv(cfg, m)
  {
    var now: Reading, exits: seq<Exit> :| Run(cfg, Installed(now, exits), events) == Some(m);
    InstalledIsInv(cfg, now, exits);
    RunKeepsInv(cfg, Installed(now, exits), events);
  }

  // ---- The promises ------------------------------------------------------------

  /**
   * Between operator resets no interval of the long window holds more than `maxResetsLong`
   * persisted charges of one boot, nor, if the short window is no longer than the long one,
   * any interval of it more than `maxResetsShort`; and no reset goes without a charge.
   */
  lemma ResetsAreBudgeted(cfg: Settings, events: seq<Event>, m: Machine)
    requires Reaches(cfg, events, m)
    ensures Budgeted(m.h.charges, cfg.longWindow, cfg.maxResetsLong)
    ensures cfg.shortWindow <= cfg.longWindow ==> Budgeted(m.h.charges, cfg.shortWindow, cfg.maxResetsShort)
    ensures m.h.bluetoothRestarts <= m.h.chargeCount
  {
    ReachableIsInv(cfg, events, m);
  }

  /**
   * Bluetooth is restarted only after a charge reached the file, the bridge's stop succeeded, and
   * it was seen fully stopped.
   */
  lemma BluetoothRestartsInOrder(cfg: Settings, events: seq<Event>, m: Machine)
    requires Reaches(cfg, events, m) && CommandAt(m.pc) == Some(RestartBluetooth)
    ensures |m.h.script| == 3 && m.h.script[..2] == [Charged, Did(StopBridge, true)] && ShowsStopped(m.h.script[2])
    ensures ChargeIsSaved(m) && !m.disk.recoveryFailed
  {
    ReachableIsInv(cfg, events, m);
  }

  /**
   * A reset starts the bridge only after Bluetooth was seen active again, and it cleared the
   * bridge's start limit first exactly if the unit was shown to have hit it.
   */
  lemma StartsInOrder(cfg: Settings, events: seq<Event>, m: Machine)
    requires Reaches(cfg, events, m) && m.pc == Starting
    ensures |m.h.script| >= 6 && BluetoothIsUp(m.h.script) && m.h.script[5].SawLimit?
    ensures m.h.script[6..] == if m.h.script[5].shown.startLimitHit then [Did(ResetFailed, true)] else []
  {
    ReachableIsInv(cfg, events, m);
  }

  /**
   * Pending implies latched, on disk always and in a pass throughout; and a stop leaves the
   * pending state only by an operator reset or by the save of a pass whose own stop
   * succeeded and which then saw the bridge fully stopped.
   */
  lemma TerminalStopIsDurable(cfg: Settings, events: seq<Event>, m: Machine, e: Event)
    requires Reaches(cfg, events, m) && Enabled(m, e)
    ensures m.disk.terminalStopPending ==> m.disk.recoveryFailed
    ensures m.disk.terminalStopPending && !Step(cfg, m, e).disk.terminalStopPending ==>
              e == OperatorReset || (e == Save && VerifiedStop(m.h.script))
  {
    ReachableIsInv(cfg, events, m);
    DiskChangesBySaving(cfg, m, e);
  }

  lemma DiskChangesBySaving(cfg: Settings, m: Machine, e: Event)
    requires Enabled(m, e)
    ensures Step(cfg, m, e).disk != m.disk ==> e == Save || e == Charge || e == OperatorReset
    ensures e == Save ==> Step(cfg, m, e).disk == m.mem && Step(cfg, m, e).h.log == m.h.log + m.h.unsaved
  {
  }

  /**
   * The last note is a look at a ready instance which every look has seen ready since one that was
   * at least this much earlier.
   */
  ghost predicate WatchedFor(log: seq<Note>, seconds: real) {
    && log != [] && log[|log| - 1].Sighting?
    && exists k: nat, instance: string, first: Stamp ::
         StreakFrom(log, k, instance, first) && Apart(first, log[|log| - 1].at, seconds)
  }

  /**
   * The latch clears only by an operator reset, or by the save of a pass that saw a ready
   * instance which every saved sighting has seen ready since one at least
   * `healthyResetSeconds` earlier, while no stop was pending.
   */
  lemma LatchClearsByWatching(cfg: Settings, events: seq<Event>, m: Machine, e: Event)
    requires Reaches(cfg, events, m) && Enabled(m, e)
    requires m.disk.recoveryFailed && !Step(cfg, m, e).disk.recoveryFailed && e != OperatorReset
    ensures !m.disk.terminalStopPending && WatchedFor(Step(cfg, m, e).h.log, cfg.healthyResetSeconds)
  {
    ReachableMayClear(cfg, events, m);
    DiskChangesBySaving(cfg, m, e);
    ChargingIsUnlatched(cfg, m, e);
    ClearingSave(cfg, m);
  }

  lemma ReachableMayClear(cfg: Settings, events: seq<Event>, m: Machine)
    requires Reaches(cfg, events, m)
    ensures LogInv(m) && ClearInv(cfg, m) && (m.pc == Charging ==> !m.disk.recoveryFailed)
  {
    ReachableIsInv(cfg, events, m);
  }

  lemma ChargingIsUnlatched(cfg: Settings, m: Machine, e: Event)
    requires Enabled(m, e)
    ensures e == Charge ==> m.pc == Charging
    ensures e == Save ==> m.pc.Saving?
  {
  }

  lemma ClearingSave(cfg: Settings, m: Machine)
    requires LogInv(m) && ClearInv(cfg, m) && m.pc.Saving? && m.disk.recoveryFailed && !m.mem.recoveryFailed
    ensures !m.disk.terminalStopPending && WatchedFor(m.h.log + m.h.unsaved, cfg.healthyResetSeconds)
  {
    var log := m.h.log + m.h.unsaved;
    var k: nat :| StreakFrom(log, k, m.mem.readyInstance, m.mem.readySince.value);
  }

  /** A pass that began latched commands nothing but the bridge's stop, at any point of it. */
  lemma LatchedPassOnlyStops(cfg: Settings, events: seq<Event>, m: Machine)
    requires Reaches(cfg, events, m) && m.pc != Idle && m.h.beganLatched
    ensures OnlyStops(m.h.script)
    ensures CommandAt(m.pc).Some? ==> CommandAt(m.pc) == Some(StopForGood)
  {
    ReachableIsInv(cfg, events, m);
  }

  /** What a pass leaves behind when it returns. */
  ghost predicate LeftInOrder(m: Machine) {
    && !OwesStart(m.h.script)
    && (m.h.beganLatched ==> OnlyStops(m.h.script))
    && (m.disk.recoveryFailed && !m.h.beganLatched ==> LastCommand(m.h.script) == Some(StopForGood))
    && Bounded(m.disk, m.h.seen)
    && StopIsRetried(m.disk, m.h)
  }

  lemma LastSaveLeavesOrder(cfg: Settings, m: Machine)
    requires PassInv(m) && RetryInv(m) && m.pc == Saving(Idle)
    ensures LeftInOrder(Step(cfg, m, Save))
  {
  }

  lemma FailedStopLeavesOrder(m: Machine)
    requires PassInv(m) && RetryInv(m) && m.pc == StoppingForGood
    ensures LeftInOrder(CommandStep(m, false))
  {
    ScriptGrows(m.h.script, Did(StopForGood, false));
  }

  lemma UnverifiedStopLeavesOrder(cfg: Settings, m: Machine)
    requires PassInv(m) && RetryInv(m) && m.pc == AwaitStoppedForGood
    ensures LeftInOrder(TimeOutStep(cfg, m))
  {
    assert LastCommand(m.h.script) == Some(StopForGood);
  }

  /** The three ways a pass returns. */
  lemma HowPassesEnd(cfg: Settings, m: Machine, e: Event)
    requires Enabled(m, e) && Completes(cfg, m, e)
    ensures || (e == Save && m.pc == Saving(Idle))
            || (e == Command(false) && m.pc == StoppingForGood)
            || (e == TimeOut && m.pc == AwaitStoppedForGood)
  {
  }

  /**
   * When a pass returns: whatever recovery stopped, a start was attempted after it; if it
   * began latched it only stopped the bridge; if it latched, its last command was a stop;
   * and six startup exits in a row are latched, unless the bridge failed on its configuration.
   */
  lemma PassesEndInOrder(cfg: Settings, events: seq<Event>, m: Machine, e: Event)
    requires Reaches(cfg, events, m) && Enabled(m, e) && Completes(cfg, m, e)
    ensures LeftInOrder(Step(cfg, m, e))
  {
    ReachableIsInv(cfg, events, m);
    HowPassesEnd(cfg, m, e);
    if e == Save {
      LastSaveLeavesOrder(cfg, m);
    } else if e == TimeOut {
      UnverifiedStopLeavesOrder(cfg, m);
    } else {
      FailedStopLeavesOrder(m);
    }
  }

  /**
   * A pending stop is retried. When a pass returns with the stop still pending in the file, and its
   * look found the bridge neither ready nor failed on its configuration, its last command was the
   * stop; and a pass that began latched commands the stop exactly if one was pending in the file
   * it loaded and its look found the bridge neither ready nor failed on its configuration.
   */
  lemma PendingStopIsRetried(cfg: Settings, events: seq<Event>, m: Machine, e: Event)
    requires Reaches(cfg, events, m) && Enabled(m, e) && Completes(cfg, m, e)
    ensures var n := Step(cfg, m, e);
            && (n.disk.terminalStopPending && !n.h.seen.SawReady() && !n.h.seen.Misconfigured() ==>
                  LastCommand(n.h.script) == Some(StopForGood))
            && (n.h.beganLatched ==>
                  (LastCommand(n.h.script) == Some(StopForGood) <==>
                   n.h.beganPending && !n.h.seen.SawReady() && !n.h.seen.Misconfigured()))
  {
    PassesEndInOrder(cfg, events, m, e);
  }

  /** A recovery is only saved as one if it saw ready an instance other than the one its own look had trusted. */
  lemma RecoveriesAreVerified(cfg: Settings, events: seq<Event>, m: Machine)
    requires Reaches(cfg, events, m) && Recovered in m.h.unsaved
    ensures m.pc == Saving(Idle) && SawNew(m.h.script, m.h.seen)
  {
    ReachableIsInv(cfg, events, m);
  }

  /** The counters and the watch in the file are what the saved passes add up to, in every reachable state. */
  lemma CountersAddUp(cfg: Settings, events: seq<Event>, m: Machine)
    requires Reaches(cfg, events, m)
    ensures m.disk.startupFailureStreak == StartupStreak(m.h.log)
    ensures m.disk.plainRestartStreak == PlainStreak(m.h.log)
    ensures Watched(m.h.log, m.disk.readyInstance, m.disk.readySince)
  {
    ReachableIsInv(cfg, events, m);
  }

  lemma {:induction false} BegunAreSavedOrLost(log: seq<Note>)
    ensures RestartsBegun(log) == PlainStreak(log) + LostRestarts(log)
  {
    if log != [] {
      BegunAreSavedOrLost(log[..|log| - 1]);
    }
  }

  /**
   * Between ready sightings or operator resets at most three plain restarts are begun,
   * besides those of passes that crashed before saving them; and every one is noted before
   * its first command.
   */
  lemma PlainRestartsAreBounded(cfg: Settings, events: seq<Event>, m: Machine)
    requires Reaches(cfg, events, m)
    ensures RestartsBegun(m.h.log + m.h.unsaved) <= 3 + LostRestarts(m.h.log + m.h.unsaved)
    ensures m.pc == ResettingPlain || m.pc == StartingPlain ==>
              m.h.unsaved != [] && m.h.unsaved[|m.h.unsaved| - 1].Restarted?
  {
    ReachableIsInv(cfg, events, m);
    assert m.h.log + [] == m.h.log;
    BegunAreSavedOrLost(m.h.log + m.h.unsaved);
  }

  /**
   * A crash before the save forgets what the pass saw, and the exits it had consumed: the
   * file and its notes are as before. This is why the counters and the watch are about
   * saved passes.
   */
  lemma UnsavedPassIsForgotten(cfg: Settings, m: Machine, unit: Properties, record: Option<Record>)
    requires m.pc == Idle && m.h.unsaved == [] && ValidRecord(record)
    ensures var after := Run(cfg, m, [Look(unit, record), Crash]);
            after.Some? && after.value.disk == m.disk && after.value.h.log == m.h.log && after.value.exits == []
  {
    var events := [Look(unit, record), Crash];
    assert events[..1] == [Look(unit, record)] && events[..1][..0] == [];
    assert Run(cfg, m, []) == Some(m);
    assert Run(cfg, m, events[..1]) == Some(LookStep(cfg, m, unit, record));
  }
}
