/**
 * scripts/bridge_recovery.py, run_once and its actions as they are executed: the state
 * object updated in place, the two files, the wait loops, the exit hook. Every effect is
 * noted in a ghost trace, and every method is proved to extend it to a run of the machine
 * in SupervisorMachine, so what SupervisorRuns proves of all runs holds of this code.
 *
 * The service manager, the bridge's record, the clocks and the exits recorded meanwhile
 * are arbitrary.
 */
module Supervisor {
  import opened Basics
  import opened SupervisorState
  import opened SupervisorMachine
  import opened SupervisorRuns

  /** What a wait loop looks for. */
  datatype Goal = BridgeStopped | BluetoothActive | NewlyReady(previous: Option<string>) {
    predicate Met(shown: Option<Properties>, record: Option<Record>) {
      shown.Some?
      && match this
         case BridgeStopped => shown.value.FullyStopped()
         case BluetoothActive => shown.value.activeState == Active
         case NewlyReady(previous) =>
           ReadyInstance(record, shown.value).Some? && ReadyInstance(record, shown.value) != previous
    }
  }

  ghost function GoalAt(m: Machine): Goal
    requires Waits(m.pc)
  {
    match m.pc
    case AwaitBluetooth => BluetoothActive
    case Verifying => NewlyReady(m.previous)
    case _ => BridgeStopped
  }

  lemma UnmetPollsAreIdle(m: Machine, shown: Option<Properties>, record: Option<Record>)
    requires Waits(m.pc) && !GoalAt(m).Met(shown, record)
    ensures PollStep(m, shown, record) == m
  {
  }

  class Supervisor {
    const cfg: Settings
    /** state.json and exits.json. */
    var stateFile: Saved
    var exitLog: seq<Exit>
    var clock: Reading
    ghost var trace: seq<Event>
    ghost var m: Machine

    ghost predicate Valid()
      reads this
    {
      && 0.0 <= cfg.stopTimeout && 0.0 <= cfg.verifySeconds && cfg.pollInterval == 2.0
      && Reaches(cfg, trace, m)
      && m.disk == stateFile && m.exits == exitLog && m.now == clock && ValidReading(clock)
    }

    /** The machine as it was, after time has passed and exits may have been recorded. */
    ghost function Later(before: Machine): Machine
      reads this
    {
      before.(now := clock, exits := exitLog)
    }

    /** Still the pass that looked. */
    ghost predicate SameLook(before: Machine)
      reads this
    {
      && m.h.seen == before.h.seen
      && m.h.beganLatched == before.h.beganLatched && m.h.beganPending == before.h.beganPending
    }

    ghost predicate SamePass(before: Machine)
      reads this
    {
      m.previous == before.previous && SameLook(before)
    }

    constructor (cfg: Settings, now: Reading)
      requires cfg.Valid() && ValidReading(now)
      ensures Valid() && m == Installed(now, []) && trace == [] && this.cfg == cfg
    {
      this.cfg := cfg;
      stateFile, exitLog, clock := NEW_STATE, [], now;
      trace, m := [], Installed(now, []);
      new;
      assert Run(cfg, Installed(now, []), []) == Some(m);
    }

    ghost method Emit(e: Event)
      requires Reaches(cfg, trace, m) && Enabled(m, e)
      modifies this`trace, this`m
      ensures Reaches(cfg, trace, m) && m == Step(cfg, old(m), e) && trace == old(trace) + [e]
    {
      var now: Reading, exits: seq<Exit> :|
        Run(cfg, Installed(now, exits), trace) == Some(m) && ValidReading(now) && ValidExits(exits);
      RunGrows(cfg, Installed(now, exits), trace, e);
      trace, m := trace + [e], Step(cfg, m, e);
      assert Run(cfg, Installed(now, exits), trace) == Some(m);
    }

    ghost method NoteCommand(ok: bool)
      requires Reaches(cfg, trace, m) && CommandAt(m.pc).Some?
      modifies this`trace, this`m
      ensures Reaches(cfg, trace, m) && m == CommandStep(old(m), ok)
      ensures m.disk == old(m.disk) && m.exits == old(m.exits) && m.now == old(m.now)
    {
      Emit(Event.Command(ok));
    }

    ghost method NotePoll(shown: Option<Properties>, record: Option<Record>)
      requires Reaches(cfg, trace, m) && Enabled(m, Poll(shown, record))
      modifies this`trace, this`m
      ensures Reaches(cfg, trace, m) && m == PollStep(old(m), shown, record)
      ensures m.disk == old(m.disk) && m.exits == old(m.exits) && m.now == old(m.now)
    {
      Emit(Poll(shown, record));
    }

    ghost method NoteChoose()
      requires Reaches(cfg, trace, m) && m.pc.Choosing?
      modifies this`trace, this`m
      ensures Reaches(cfg, trace, m) && m == ChooseStep(cfg, old(m))
      ensures m.disk == old(m.disk) && m.exits == old(m.exits) && m.now == old(m.now)
    {
      Emit(Choose);
    }

    ghost method NoteTimeOut()
      requires Reaches(cfg, trace, m) && Waits(m.pc)
      modifies this`trace, this`m
      ensures Reaches(cfg, trace, m) && m == TimeOutStep(cfg, old(m))
      ensures m.disk == old(m.disk) && m.exits == old(m.exits) && m.now == old(m.now)
    {
      TimeOutKeepsFiles(cfg, m);
      Emit(TimeOut);
    }

    // ---- The surroundings ---------------------------------------------------

    /** record_exit, for an exit systemd reports. */
    method RecordExit(code: ExitCode, status: string)
      requires Valid()
      modifies this`exitLog, this`trace, this`m
      ensures Valid() && m == Later(old(m)) && trace == old(trace) + [Event.RecordExit(code, status)]
      ensures var log := old(exitLog) + [Exit(clock.Mark(), code, status)];
              exitLog == if |log| <= 64 then log else log[|log| - 64..]
    {
      exitLog := LastExits(exitLog + [Exit(clock.Mark(), code, status)]);
      Emit(Event.RecordExit(code, status));
    }

    /** At least this long passes, and any number of exits is recorded meanwhile. */
    method Pass(seconds: real)
      requires Valid() && 0.0 <= seconds
      modifies this`exitLog, this`clock, this`trace, this`m
      ensures Valid() && m == Later(old(m)) && old(clock).AtMost(clock)
      ensures clock.monotonic >= old(clock).monotonic + seconds
    {
      var t: real, wall: real, monotonic: real := *, *, *;
      clock := Reading(clock.boot, if t > clock.t then t else clock.t, if wall > 0.0 then wall else 0.0,
                       if monotonic > clock.monotonic + seconds then monotonic else clock.monotonic + seconds);
      Emit(Elapse(clock));
      var count :| 0 <= count;
      for i := 0 to count
        invariant Valid() && m == Later(old(m))
        invariant old(clock).AtMost(clock) && clock.monotonic >= old(clock).monotonic + seconds
      {
        var code: ExitCode, status: string := *, *;
        RecordExit(code, status);
      }
    }

    /** systemctl show, which may fail. */
    method Show() returns (shown: Option<Properties>)
      requires Valid()
      modifies this`exitLog, this`clock, this`trace, this`m
      ensures Valid() && m == Later(old(m)) && old(clock).AtMost(clock)
    {
      Pass(0.0);
      shown := *;
    }

    /** load_record: whatever it is, it was validated. */
    method ReadRecord() returns (record: Option<Record>)
      ensures ValidRecord(record)
    {
      record := *;
      if record.Some? && !record.value.Valid() {
        record := None;
      }
    }

    /** Systemctl.action: the command may succeed or fail. */
    method Act(command: Command) returns (ok: bool)
      requires Valid() && CommandAt(m.pc) == Some(command)
      modifies this`exitLog, this`clock, this`trace, this`m
      ensures Valid() && m == CommandStep(Later(old(m)), ok) && old(clock).AtMost(clock)
    {
      Pass(0.0);
      ok := *;
      NoteCommand(ok);
    }

    // ---- The actions --------------------------------------------------------

    method SaveState(state: State)
      requires Valid() && m.pc.Saving? && state.View() == m.mem
      modifies this`stateFile, this`trace, this`m
      ensures Valid() && m == Persist(old(m)).(pc := old(m).pc.after)
    {
      stateFile := state.View();
      Emit(Save);
    }

    /** The save that ends a pass. */
    method SaveLast(state: State)
      requires Valid() && m.pc == Saving(Idle) && state.View() == m.mem
      modifies this`stateFile, this`trace, this`m
      ensures Valid() && m.pc == Idle && LeftInOrder(m) && m.mem == old(m.mem) && m.disk == m.mem
      ensures m.h.script == old(m.h.script) && SamePass(old(m))
    {
      ReachableIsInv(cfg, trace, m);
      LastSaveLeavesOrder(cfg, m);
      SaveState(state);
    }

    /**
     * _wait_until: polls until the goal is met, or the first unmet
     * poll at or after the deadline. It ends, because every round sleeps for the interval.
     */
    method WaitUntil(goal: Goal, timeout: real)
        returns (met: bool, ghost shown: Option<Properties>, ghost record: Option<Record>)
      requires Valid() && Waits(m.pc) && goal == GoalAt(m) && 0.0 <= timeout
      modifies this`exitLog, this`clock, this`trace, this`m
      ensures Valid() && old(clock).AtMost(clock)
      ensures met ==> goal.Met(shown, record) && m == PollStep(Later(old(m)), shown, record)
      ensures !met ==> m == TimeOutStep(cfg, Later(old(m))) && clock.monotonic >= old(clock).monotonic + timeout
    {
      var deadline := clock.monotonic + timeout;
      while true
        invariant Valid() && m == Later(old(m)) && old(clock).AtMost(clock)
        decreases deadline - clock.monotonic + 2.0
      {
        var properties := Show();
        var current := ReadRecord();
        NotePoll(properties, current);
        if goal.Met(properties, current) {
          return true, properties, current;
        }
        UnmetPollsAreIdle(Later(old(m)), properties, current);
        if clock.monotonic >= deadline {
          NoteTimeOut();
          return false, None, None;
        }
        Pass(cfg.pollInterval);
      }
    }

    /** Stop the bridge, and drop the exits that caused. A failure says whether the bridge may be down. */
    method StopForReset() returns (failure: Option<string>, bridgeStopped: bool)
      requires Valid() && m.pc == Stopping
      modifies this`exitLog, this`clock, this`trace, this`m
      ensures Valid() && SamePass(old(m))
      ensures failure.None? ==> m.pc == RestartingBluetooth && m.mem == old(m.mem) && exitLog == []
      ensures failure.Some? ==> GaveUp(old(m.mem), failure.value, bridgeStopped)
      ensures failure == Some("bridge_stop_timeout") ==>
                clock.monotonic >= old(clock).monotonic + cfg.stopTimeout
    {
      var ok := Act(StopBridge);
      if !ok {
        return Some("service_manager_stop"), false;
      }
      var stopped, _, _ := WaitUntil(BridgeStopped, cfg.stopTimeout);
      if !stopped {
        return Some("bridge_stop_timeout"), true;
      }
      exitLog := [];
      Emit(DropExits);
      return None, true;
    }

    /** Restart Bluetooth and start the bridge again. */
    method RestartStack() returns (failure: Option<string>)
      requires Valid() && m.pc == RestartingBluetooth
      modifies this`exitLog, this`clock, this`trace, this`m
      ensures Valid() && SamePass(old(m))
      ensures failure.None? ==> m.pc == Verifying && m.mem == old(m.mem)
      ensures failure.Some? ==> GaveUp(old(m.mem), failure.value, true)
      ensures failure == Some("bluetooth_restart_timeout") ==>
                clock.monotonic >= old(clock).monotonic + cfg.stopTimeout
    {
      var ok := Act(RestartBluetooth);
      if !ok {
        return Some("service_manager_restart");
      }
      var active, _, _ := WaitUntil(BluetoothActive, cfg.stopTimeout);
      if !active {
        return Some("bluetooth_restart_timeout");
      }
      failure := StartAgain();
    }

    /** Start the bridge, past its start limit if it hit it. */
    method StartAgain() returns (failure: Option<string>)
      requires Valid() && m.pc == CheckLimit
      modifies this`exitLog, this`clock, this`trace, this`m
      ensures Valid() && SamePass(old(m))
      ensures failure.None? ==> m.pc == Verifying && m.mem == old(m.mem)
      ensures failure.Some? ==> GaveUp(old(m.mem), failure.value, true)
      ensures failure != Some("bluetooth_restart_timeout")
    {
      var hit;
      failure, hit := CheckStartLimit();
      if failure.Some? {
        return;
      }
      if hit {
        var reset := Act(ResetFailed);
        if !reset {
          return Some("service_manager_reset-failed");
        }
      }
      failure := StartOnce();
    }

    /** Whether the unit is shown to have hit its start limit. */
    method CheckStartLimit() returns (failure: Option<string>, hit: bool)
      requires Valid() && m.pc == CheckLimit
      modifies this`exitLog, this`clock, this`trace, this`m
      ensures Valid() && SamePass(old(m))
      ensures failure.None? ==> m.pc == (if hit then ResettingLimit else Starting) && m.mem == old(m.mem)
      ensures failure.Some? ==> GaveUp(old(m.mem), failure.value, true)
      ensures failure.None? || failure == Some("service_manager_show")
    {
      var properties := Show();
      NotePoll(properties, None);
      if properties.None? {
        return Some("service_manager_show"), false;
      }
      return None, properties.value.startLimitHit;
    }

    method StartOnce() returns (failure: Option<string>)
      requires Valid() && m.pc == Starting
      modifies this`exitLog, this`clock, this`trace, this`m
      ensures Valid() && SamePass(old(m)) && (failure.None? || failure == Some("service_manager_start"))
      ensures failure.None? ==> m.pc == Verifying && m.mem == old(m.mem)
      ensures failure.Some? ==> GaveUp(old(m.mem), failure.value, true)
    {
      var started := Act(StartBridge);
      failure := if started then None else Some("service_manager_start");
    }

    /** The try block of recover. */
    method ResetBluetooth() returns (failure: Option<string>, bridgeStopped: bool)
      requires Valid() && m.pc == Stopping
      modifies this`exitLog, this`clock, this`trace, this`m
      ensures Valid() && SamePass(old(m))
      ensures failure.None? ==> m.pc == Verifying && m.mem == old(m.mem)
      ensures failure.Some? ==> GaveUp(old(m.mem), failure.value, bridgeStopped)
    {
      failure, bridgeStopped := StopForReset();
      if failure.None? {
        failure := RestartStack();
        bridgeStopped := failure.Some?;
      }
    }

    /** The recovery latched, and will save that; the bridge may need a start first. */
    ghost predicate GaveUp(mem: Saved, failure: string, bridgeStopped: bool)
      reads this
    {
      m.mem == Latched(mem, failure) && m.pc == Saving(if bridgeStopped then Rescuing else StoppingForGood)
    }

    /** `fail`, and the start the finally block owes. */
    method Abandon(state: State, failure: string, bridgeStopped: bool)
      requires Valid() && GaveUp(state.View(), failure, bridgeStopped)
      modifies this, state
      ensures Valid() && m.pc == StoppingForGood && state.View() == m.mem && state.recoveryFailed && SamePass(old(m))
    {
      state.Fail(failure);
      SaveState(state);
      if bridgeStopped {
        var _ := Act(StartBridge);
      }
    }

    /** recover, after its settling save: true if a new bridge process was seen ready. */
    method Recover(state: State, previous: Option<string>) returns (recovered: bool)
      requires Valid() && m.pc == Charging && state.View() == m.mem && !state.recoveryFailed && previous == m.previous
      modifies this, state
      ensures Valid() && state.View() == m.mem && SamePass(old(m))
      ensures RecoveryOver(state.recoveryFailed)
      ensures recovered ==> m.pc == Idle && state.lastResult == "recovered" && VerifiedNew(m.h.script, previous)
    {
      state.resets := state.resets + [clock.Mark()];
      state.lastResult := "in_progress";
      Charge(state);
      var failure, bridgeStopped := ResetBluetooth();
      if failure.Some? {
        Abandon(state, failure.value, bridgeStopped);
        return false;
      }
      recovered := Verify(state, previous);
    }

    /** The recovery returned in order, or latched and will stop the bridge for good. */
    ghost predicate RecoveryOver(latched: bool)
      reads this
    {
      if latched then m.pc == StoppingForGood else m.pc == Idle && LeftInOrder(m)
    }

    /** The charge reaches the file before anything is done. */
    method Charge(state: State)
      requires Valid() && m.pc == Charging
      requires state.View() == m.mem.(resets := m.mem.resets + [clock.Mark()], lastResult := "in_progress")
      modifies this`stateFile, this`trace, this`m
      ensures Valid() && m.pc == Stopping && state.View() == m.mem && SamePass(old(m))
    {
      stateFile := state.View();
      Emit(Event.Charge);
    }

    /** The wait for the recovered bridge, and what its outcome asks to be saved. */
    method AwaitReady(previous: Option<string>) returns (seen: bool)
      requires Valid() && m.pc == Verifying && previous == m.previous
      modifies this`exitLog, this`clock, this`trace, this`m
      ensures Valid() && m.pc.Saving? && SamePass(old(m))
      ensures !seen ==> clock.monotonic >= old(clock).monotonic + cfg.verifySeconds
      ensures seen ==> m.pc.after == Idle && VerifiedNew(m.h.script, previous)
      ensures seen ==> m.mem == old(m.mem).(bleFailures := [], startupFailureStreak := 0, lastResult := "recovered")
      ensures !seen && |Recent(m.mem.resets, clock, cfg.longWindow)| < cfg.maxResetsLong ==>
                m.pc.after == Idle && m.mem == old(m.mem).(lastResult := "verify_failed")
      ensures !seen && |Recent(m.mem.resets, clock, cfg.longWindow)| >= cfg.maxResetsLong ==>
                m.pc.after == StoppingForGood && m.mem == Latched(old(m.mem), "verify_failed_budget_exhausted")
    {
      ghost var shown, record;
      seen, shown, record := WaitUntil(NewlyReady(previous), cfg.verifySeconds);
    }

    method Verify(state: State, previous: Option<string>) returns (recovered: bool)
      requires Valid() && m.pc == Verifying && state.View() == m.mem && !state.recoveryFailed && previous == m.previous
      modifies this, state
      ensures Valid() && state.View() == m.mem && SamePass(old(m))
      ensures RecoveryOver(state.recoveryFailed)
      ensures recovered ==> m.pc == Idle && state.lastResult == "recovered" && VerifiedNew(m.h.script, previous)
    {
      var seen := AwaitReady(previous);
      if seen {
        SaveVerified(state);
      } else {
        SaveUnverified(state);
      }
      return seen;
    }

    method SaveVerified(state: State)
      requires Valid() && m.pc == Saving(Idle)
      requires m.mem == state.View().(bleFailures := [], startupFailureStreak := 0, lastResult := "recovered")
      modifies this`stateFile, this`trace, this`m, state
      ensures Valid() && state.View() == m.mem == old(m.mem) && SamePass(old(m))
      ensures m.pc == Idle && LeftInOrder(m) && m.h.script == old(m.h.script)
    {
      state.bleFailures := [];
      state.startupFailureStreak := 0;
      state.lastResult := "recovered";
      SaveLast(state);
    }

    /** Not verified: latched, if that was the last reset the budget had. */
    method SaveUnverified(state: State)
      requires Valid() && m.pc.Saving? && !state.recoveryFailed
      requires |Recent(m.mem.resets, clock, cfg.longWindow)| < cfg.maxResetsLong ==>
                 m.pc.after == Idle && m.mem == state.View().(lastResult := "verify_failed")
      requires |Recent(m.mem.resets, clock, cfg.longWindow)| >= cfg.maxResetsLong ==>
                 m.pc.after == StoppingForGood && m.mem == Latched(state.View(), "verify_failed_budget_exhausted")
      modifies this, state
      ensures Valid() && state.View() == m.mem && SamePass(old(m))
      ensures RecoveryOver(state.recoveryFailed)
    {
      state.lastResult := "verify_failed";
      if |Recent(state.resets, clock, cfg.longWindow)| >= cfg.maxResetsLong {
        state.Fail("verify_failed_budget_exhausted");
        SaveState(state);
      } else {
        SaveLast(state);
      }
    }

    method ChargeRestart(state: State)
      modifies state
      ensures state.View() == old(state.View()).(plainRestarts := old(state.plainRestarts) + [clock.Mark()],
                                                 plainRestartStreak := old(state.plainRestartStreak) + 1)
    {
      state.plainRestarts := state.plainRestarts + [clock.Mark()];
      state.plainRestartStreak := state.plainRestartStreak + 1;
    }

    /** restart_bridge: charged to the state first. */
    method RestartBridge(state: State)
      requires Valid() && m.pc == ResettingPlain
      requires m.mem == state.View().(plainRestarts := state.plainRestarts + [clock.Mark()],
                                      plainRestartStreak := state.plainRestartStreak + 1)
      modifies this`exitLog, this`clock, this`trace, this`m, state
      ensures Valid() && m.pc == Saving(Idle) && state.View() == m.mem && SamePass(old(m))
    {
      ChargeRestart(state);
      var reset := Act(ResetFailed);
      if reset {
        StartPlainly(state);
      } else {
        state.lastResult := "bridge_restart_failed";
      }
    }

    method StartPlainly(state: State)
      requires Valid() && m.pc == StartingPlain && state.View() == m.mem
      modifies this`exitLog, this`clock, this`trace, this`m, state
      ensures Valid() && m.pc == Saving(Idle) && state.View() == m.mem && SamePass(old(m))
    {
      var started := Act(StartBridge);
      state.lastResult := if started then "bridge_restarted" else "bridge_restart_failed";
    }

    /** What a terminal stop leaves: the pending flag is gone only if the bridge was seen fully stopped. */
    ghost predicate StoppedForGood()
      reads this
    {
      && m.pc == Idle && LeftInOrder(m) && stateFile.recoveryFailed
      && (!stateFile.terminalStopPending ==> VerifiedStop(m.h.script))
    }

    method StopTerminally(state: State)
      requires Valid() && m.pc == StoppingForGood && state.View() == m.mem
      modifies this, state
      ensures Valid() && StoppedForGood() && SamePass(old(m))
    {
      var ok := CommandLastStop();
      if ok {
        AwaitLastStop(state);
      }
    }

    method CommandLastStop() returns (ok: bool)
      requires Valid() && m.pc == StoppingForGood
      modifies this`exitLog, this`clock, this`trace, this`m
      ensures Valid() && m.mem == old(m.mem) && SamePass(old(m))
      ensures if ok then m.pc == AwaitStoppedForGood else StoppedForGood()
    {
      Pass(0.0);
      ReachableIsInv(cfg, trace, m);
      FailedStopLeavesOrder(m);
      ok := *;
      NoteCommand(ok);
    }

    method AwaitStop() returns (stopped: bool)
      requires Valid() && m.pc == AwaitStoppedForGood
      modifies this`exitLog, this`clock, this`trace, this`m
      ensures Valid() && SamePass(old(m))
      ensures stopped ==> m.pc == Saving(Idle) && VerifiedStop(m.h.script) && m.mem.recoveryFailed
      ensures stopped ==> m.mem == old(m.mem).(terminalStopPending := false)
      ensures !stopped ==> StoppedForGood() && clock.monotonic >= old(clock).monotonic + cfg.stopTimeout
    {
      ghost var shown, record;
      stopped, shown, record := WaitUntil(BridgeStopped, cfg.stopTimeout);
      StopWaitEnds(cfg, old(trace), old(m), Later(old(m)), stopped, shown, record);
    }

    method AwaitLastStop(state: State)
      requires Valid() && m.pc == AwaitStoppedForGood && state.View() == m.mem
      modifies this, state
      ensures Valid() && StoppedForGood() && SamePass(old(m))
    {
      var stopped := AwaitStop();
      if stopped {
        state.terminalStopPending := false;
        SaveLast(state);
      }
    }

    // ---- A pass -------------------------------------------------------------

    /** Look at the bridge: load the state, consume the exits, observe. */
    method LookAt(unit: Properties) returns (state: State, record: Option<Record>)
      requires Valid() && m.pc == Idle
      modifies this`exitLog, this`trace, this`m
      ensures Valid() && fresh(state) && ValidRecord(record)
      ensures m == LookStep(cfg, old(m), unit, record) && state.View() == m.mem
    {
      state := new State(stateFile);
      record := ReadRecord();
      var exits := exitLog;
      exitLog := [];
      state.Observe(unit, record, exits, clock, cfg);
      Emit(Look(unit, record));
    }

    method LatchAndStop(state: State, reason: string)
      requires Valid() && m.pc == Saving(StoppingForGood) && m.mem == Latched(state.View(), reason)
      modifies this, state
      ensures Valid() && m.pc == Idle && LeftInOrder(m) && SameLook(old(m))
    {
      state.Fail(reason);
      SaveState(state);
      StopTerminally(state);
    }

    method RecoverOrStop(state: State, previous: Option<string>)
      requires Valid() && m.pc == Saving(Charging) && state.View() == m.mem && !state.recoveryFailed
               && previous == m.previous
      modifies this, state
      ensures Valid() && m.pc == Idle && LeftInOrder(m) && SameLook(old(m))
    {
      SaveState(state);
      var _ := Recover(state, previous);
      if state.recoveryFailed {
        StopTerminally(state);
      }
    }

    /** Decide, and do what was decided. */
    method DecideAndAct(state: State, unit: Properties, record: Option<Record>) returns (result: string)
      requires Valid() && m.pc == Choosing(unit, record) && state.View() == m.mem
      modifies this, state
      ensures Valid() && m.pc == Idle && LeftInOrder(m) && SameLook(old(m))
    {
      var d := Decide(state.View(), unit, record, clock, cfg);
      NoteChoose();
      match d.action {
        case Latch =>
          LatchAndStop(state, d.reason);
          return d.reason;
        case Restart =>
          RestartBridge(state);
          SaveLast(state);
          return state.lastResult;
        case Nothing =>
          SaveLast(state);
          return d.reason;
        case Stop =>
          SaveState(state);
          StopTerminally(state);
          return d.reason;
        case Recover =>
          RecoverOrStop(state, TrustedInstance(record, unit));
          return state.lastResult;
      }
    }

    /** run_once, holding the lock: nothing without the unit's state, otherwise one pass that ends in order. */
    method RunOnce() returns (result: string, ghost ran: bool)
      requires Valid() && m.pc == Idle
      modifies this
      ensures Valid() && m.pc == Idle && (stateFile.terminalStopPending ==> stateFile.recoveryFailed)
      ensures ran ==> && LeftInOrder(m) && m.h.beganLatched == old(stateFile.recoveryFailed)
                      && m.h.beganPending == old(stateFile.terminalStopPending)
      ensures ran && stateFile.terminalStopPending && !m.h.seen.SawReady() && !m.h.seen.Misconfigured() ==>
                LastCommand(m.h.script) == Some(StopForGood)
      ensures !ran ==> result == "systemd_unavailable" && m == Later(old(m))
    {
      var unit := Show();
      if unit.None? {
        ReachableIsInv(cfg, trace, m);
        return "systemd_unavailable", false;
      }
      var state, record := LookAt(unit.value);
      Pass(0.0);
      result := DecideAndAct(state, unit.value, record);
      ReachableIsInv(cfg, trace, m);
      ran := true;
    }

    /** The `reset` command. */
    method Reset()
      requires Valid() && m.pc == Idle
      modifies this`stateFile, this`trace, this`m
      ensures Valid() && m == Step(cfg, old(m), OperatorReset)
      ensures stateFile == Saved([], [], [], 0, 0, "", None, [], 0, false, false, "none", "operator_reset")
    {
      stateFile := OPERATOR_RESET;
      Emit(OperatorReset);
    }
  }

  lemma StopTimesOut(cfg: Settings, m: Machine, later: Machine)
    requires PassInv(m) && RetryInv(m) && m.pc == AwaitStoppedForGood
    requires later == m.(now := later.now, exits := later.exits)
    ensures StopUnseen(TimeOutStep(cfg, later))
  {
    UnverifiedStopLeavesOrder(cfg, m);
  }

  lemma StopIsSeen(m: Machine, later: Machine, shown: Option<Properties>, record: Option<Record>)
    requires PassInv(m) && m.pc == AwaitStoppedForGood && later == m.(now := later.now, exits := later.exits)
    requires BridgeStopped.Met(shown, record)
    ensures StopSeen(m, PollStep(later, shown, record))
  {
  }

  /** How the wait for the terminal stop ends, after time has passed. */
  lemma StopWaitEnds(cfg: Settings, events: seq<Event>, m: Machine, later: Machine, stopped: bool,
                     shown: Option<Properties>, record: Option<Record>)
    requires Reaches(cfg, events, m) && m.pc == AwaitStoppedForGood
             && later == m.(now := later.now, exits := later.exits)
    requires stopped ==> BridgeStopped.Met(shown, record)
    ensures stopped ==> StopSeen(m, PollStep(later, shown, record))
    ensures !stopped ==> StopUnseen(TimeOutStep(cfg, later))
  {
    ReachableIsInv(cfg, events, m);
    if stopped {
      StopIsSeen(m, later, shown, record);
    } else {
      StopTimesOut(cfg, m, later);
    }
  }

  ghost predicate StopSeen(m: Machine, n: Machine) {
    && n.pc == Saving(Idle) && VerifiedStop(n.h.script) && n.mem.recoveryFailed
    && n.mem == m.mem.(terminalStopPending := false)
  }

  ghost predicate StopUnseen(n: Machine) {
    n.pc == Idle && LeftInOrder(n) && n.disk.recoveryFailed && n.disk.terminalStopPending
  }

  /** The last thing the pass did was to see ready an instance other than the one before. */
  ghost predicate VerifiedNew(script: seq<Effect>, previous: Option<string>) {
    && script != [] && script[|script| - 1].SawReady?
    && var last := script[|script| - 1];
       last.record.alive && last.record.phase == Ready && last.record.pid == last.shown.Pid()
       && Some(last.record.instance) != previous
  }
}
