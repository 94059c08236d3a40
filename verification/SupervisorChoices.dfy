/**
 * What a pass chooses, exactly: in every reachable state the choice is told from what the look
 * saw and from what the notes of all looks add up to. Nothing that should move the supervisor is
 * forgotten: the failures it holds are all the fresh evidence of the current boot.
 */
module SupervisorChoices {
  import opened Basics
  import opened SupervisorState
  import opened SupervisorMachine
  import opened SupervisorBudget
  import opened SupervisorRuns
  import opened SupervisorLooks
  import opened SupervisorEvidence

  // ---- No fresh evidence is forgotten -----------------------------------------

  ghost predicate ExitsOnlyFrom(exits: seq<Exit>, boots: set<string>) {
    forall i :: 0 <= i < |exits| && exits[i].stamp.boot.Some? ==> exits[i].stamp.boot.value in boots
  }

  /** The failures of the current boot inside the window are the evidence of the notes inside it. */
  ghost predicate Held(cfg: Settings, failures: seq<Stamp>, log: seq<Note>, now: Reading, boots: set<string>) {
    && OnlyFrom(failures, boots) && OnlyFrom(Evidence(log), boots)
    && SameRecent(failures, Evidence(log), now, cfg.failureWindow)
  }

  ghost predicate HeldInv(cfg: Settings, m: Machine) {
    && (m.now.boot.Some? ==> m.now.boot.value in m.h.boots)
    && ExitsOnlyFrom(m.exits, m.h.boots)
    && Held(cfg, m.disk.bleFailures, m.h.log, m.now, m.h.boots)
    && (m.pc != Idle ==> Held(cfg, m.mem.bleFailures, m.h.log + m.h.unsaved, m.now, m.h.boots))
  }

  lemma {:induction false} SelectOfSum(first: seq<Stamp>, second: seq<Stamp>, boot: string, after: real)
    ensures Select(first + second, boot, after) == Select(first, boot, after) + Select(second, boot, after)
  {
    if second == [] {
      assert first + second == first;
    } else {
      var n := |second| - 1;
      var whole := first + second;
      SelectOfSum(first, second[..n], boot, after);
      assert whole[..|whole| - 1] == first + second[..n] && whole[|whole| - 1] == second[n];
    }
  }

  lemma {:induction false} BleStampsOnlyFrom(exits: seq<Exit>, boots: set<string>)
    requires ExitsOnlyFrom(exits, boots)
    ensures OnlyFrom(BleStamps(exits), boots)
  {
    if exits != [] {
      BleStampsOnlyFrom(exits[..|exits| - 1], boots);
    }
  }

  /** Pruning and adding keeps what the evidence has. */
  lemma AddedIsHeld(cfg: Settings, held: seq<Stamp>, evidence: seq<Stamp>, exits: seq<Stamp>, stuck: seq<Stamp>,
      now: Reading)
    requires SameRecent(held, evidence, now, cfg.failureWindow)
    ensures SameRecent(Recent(held + exits, now, cfg.failureWindow) + stuck, evidence + (exits + stuck), now,
                       cfg.failureWindow)
  {
    if now.boot.Some? {
      var boot, after := now.boot.value, now.t - cfg.failureWindow;
      SelectOfRecent(held + exits, now, cfg.failureWindow);
      SelectOfSum(Recent(held + exits, now, cfg.failureWindow), stuck, boot, after);
      SelectOfSum(held, exits, boot, after);
      SelectOfSum(evidence, exits + stuck, boot, after);
      SelectOfSum(exits, stuck, boot, after);
      SumsAgree(Select(held, boot, after), Select(exits, boot, after), Select(stuck, boot, after));
    }
  }

  lemma SumsAgree(a: seq<Stamp>, b: seq<Stamp>, c: seq<Stamp>)
    ensures (a + b) + c == a + (b + c)
  {
  }

  lemma AddedOnlyFrom(cfg: Settings, held: seq<Stamp>, evidence: seq<Stamp>, exits: seq<Stamp>, stuck: seq<Stamp>,
      now: Reading, boots: set<string>)
    requires OnlyFrom(held, boots) && OnlyFrom(evidence, boots) && OnlyFrom(exits, boots) && OnlyFrom(stuck, boots)
    ensures OnlyFrom(Recent(held + exits, now, cfg.failureWindow) + stuck, boots)
    ensures OnlyFrom(evidence + (exits + stuck), boots)
  {
    OnlyFromRecent(held + exits, now, cfg.failureWindow, boots);
  }

  /** What a look at an unready bridge makes of the failures and of the evidence. */
  lemma UnreadyIsHeld(cfg: Settings, held: seq<Stamp>, log: seq<Note>, exits: seq<Stamp>, stuck: seq<Stamp>,
      after: seq<Stamp>, notes: seq<Note>, now: Reading, boots: set<string>)
    requires Held(cfg, held, log, now, boots) && OnlyFrom(exits, boots) && OnlyFrom(stuck, boots)
    requires after == Recent(held + exits, now, cfg.failureWindow) + stuck
    requires Evidence(notes) == Evidence(log) + (exits + stuck)
    ensures Held(cfg, after, notes, now, boots)
  {
    AddedIsHeld(cfg, held, Evidence(log), exits, stuck, now);
    AddedOnlyFrom(cfg, held, Evidence(log), exits, stuck, now, boots);
  }

  lemma ObservedIsHeld(cfg: Settings, log: seq<Note>, s: Saved, unit: Properties, record: Option<Record>,
      exits: seq<Exit>, now: Reading, boots: set<string>)
    requires Held(cfg, s.bleFailures, log, now, boots) && ExitsOnlyFrom(exits, boots)
    requires now.boot.Some? ==> now.boot.value in boots
    ensures Held(cfg, Observed(s, unit, record, exits, now, cfg).bleFailures,
                 log + [SightingOf(s, unit, record, exits, now, cfg)], now, boots)
  {
    var note, trusted := SightingOf(s, unit, record, exits, now, cfg), Trusted(record, unit);
    var after := Observed(s, unit, record, exits, now, cfg).bleFailures;
    EvidenceGrows(log, note);
    BleStampsOnlyFrom(exits, boots);
    if note.ready.None? {
      var stuck := if trusted.Some? && CountsAsStuck(s, trusted.value, now)
                   then Repeated(now.Mark(), cfg.failuresToReset) else [];
      ObservedFailures(s, unit, record, exits, now, cfg);
      UnreadyIsHeld(cfg, s.bleFailures, log, BleStamps(exits), stuck, after, log + [note], now, boots);
    } else {
      assert after == [] && Evidence(log + [note]) == [];
    }
  }

  lemma LookIsHeld(cfg: Settings, m: Machine, unit: Properties, record: Option<Record>)
    requires HeldInv(cfg, m)
    ensures HeldInv(cfg, LookStep(cfg, m, unit, record))
  {
    ObservedIsHeld(cfg, m.h.log, m.disk, unit, record, m.exits, m.now, m.h.boots);
  }

  lemma HeldLater(cfg: Settings, failures: seq<Stamp>, log: seq<Note>, now: Reading, later: Reading, boots: set<string>)
    requires Held(cfg, failures, log, now, boots) && now.AtMost(later)
    ensures Held(cfg, failures, log, later, boots)
  {
    SameRecentLater(failures, Evidence(log), now, later, cfg.failureWindow);
  }

  /** A step within a pass that notes nothing, or something other than a look. */
  lemma ActingIsHeld(cfg: Settings, m: Machine, n: Machine)
    requires HeldInv(cfg, m) && m.pc != Idle
    requires n.disk == m.disk && n.now == m.now && n.exits == m.exits && n.h.log == m.h.log && n.h.boots == m.h.boots
    requires (n.h.unsaved == m.h.unsaved && n.mem.bleFailures == m.mem.bleFailures)
             || (|n.h.unsaved| == |m.h.unsaved| + 1 && n.h.unsaved[..|m.h.unsaved|] == m.h.unsaved
                 && !n.h.unsaved[|m.h.unsaved|].Sighting?
                 && n.mem.bleFailures == if n.h.unsaved[|m.h.unsaved|].Recovered? then [] else m.mem.bleFailures)
    ensures HeldInv(cfg, n)
  {
    if n.h.unsaved != m.h.unsaved {
      var note := n.h.unsaved[|m.h.unsaved|];
      assert n.h.log + n.h.unsaved == (m.h.log + m.h.unsaved) + [note];
      EvidenceGrows(m.h.log + m.h.unsaved, note);
      assert Evidence(m.h.log + m.h.unsaved) + [] == Evidence(m.h.log + m.h.unsaved);
    }
  }

  lemma ChooseIsHeld(cfg: Settings, m: Machine)
    requires HeldInv(cfg, m) && m.pc.Choosing?
    ensures HeldInv(cfg, ChooseStep(cfg, m))
  {
    var n := ChooseStep(cfg, m);
    ChoiceIsNoted(cfg, m);
    if n.h.unsaved != m.h.unsaved {
      assert n.h.unsaved[..|m.h.unsaved|] == m.h.unsaved;
    }
    ActingIsHeld(cfg, m, n);
  }

  lemma CommandIsHeld(cfg: Settings, m: Machine, ok: bool)
    requires HeldInv(cfg, m) && CommandAt(m.pc).Some?
    ensures HeldInv(cfg, CommandStep(m, ok))
  {
    ActingIsHeld(cfg, m, CommandStep(m, ok));
  }

  lemma PollIsHeld(cfg: Settings, m: Machine, shown: Option<Properties>, record: Option<Record>)
    requires HeldInv(cfg, m) && m.pc != Idle
    ensures HeldInv(cfg, PollStep(m, shown, record))
  {
    ActingIsHeld(cfg, m, PollStep(m, shown, record));
  }

  lemma TimeOutIsHeld(cfg: Settings, m: Machine)
    requires HeldInv(cfg, m) && Waits(m.pc)
    ensures HeldInv(cfg, TimeOutStep(cfg, m))
  {
    TimeOutKeepsFiles(cfg, m);
    ActingIsHeld(cfg, m, TimeOutStep(cfg, m));
  }

  lemma CrashIsHeld(cfg: Settings, m: Machine)
    requires HeldInv(cfg, m)
    ensures HeldInv(cfg, CrashStep(m))
  {
    EvidenceGrows(m.h.log, CutShort);
    assert Evidence(m.h.log) + [] == Evidence(m.h.log);
    assert m.h.log + [] == m.h.log;
  }

  /** A new boot has no failures yet. */
  lemma HeldInNewBoot(cfg: Settings, failures: seq<Stamp>, log: seq<Note>, now: Reading, boots: set<string>)
    requires OnlyFrom(failures, boots) && OnlyFrom(Evidence(log), boots)
    requires now.boot.Some? ==> now.boot.value !in boots
    ensures Held(cfg, failures, log, now, boots + AsSet(now.boot))
  {
    if now.boot.Some? {
      StrangersAreNotSelected(failures, boots, now.boot.value, now.t - cfg.failureWindow);
      StrangersAreNotSelected(Evidence(log), boots, now.boot.value, now.t - cfg.failureWindow);
    }
  }

  lemma RebootIsHeld(cfg: Settings, m: Machine, now: Reading)
    requires HeldInv(cfg, m) && (now.boot.Some? ==> now.boot.value !in m.h.boots)
    ensures var n := CrashStep(m);
            HeldInv(cfg, n.(now := now, h := n.h.(boots := m.h.boots + AsSet(now.boot))))
  {
    CrashIsHeld(cfg, m);
    HeldInNewBoot(cfg, m.disk.bleFailures, CrashStep(m).h.log, now, m.h.boots);
  }

  lemma ElapseIsHeld(cfg: Settings, m: Machine, later: Reading)
    requires HeldInv(cfg, m) && m.now.AtMost(later)
    ensures HeldInv(cfg, m.(now := later))
  {
    HeldLater(cfg, m.disk.bleFailures, m.h.log, m.now, later, m.h.boots);
    if m.pc != Idle {
      HeldLater(cfg, m.mem.bleFailures, m.h.log + m.h.unsaved, m.now, later, m.h.boots);
    }
  }

  lemma SavingIsHeld(cfg: Settings, m: Machine, e: Event)
    requires HeldInv(cfg, m) && Enabled(m, e) && (e.Save? || e.Charge?)
    ensures HeldInv(cfg, Step(cfg, m, e))
  {
    assert (m.h.log + m.h.unsaved) + [] == m.h.log + m.h.unsaved;
  }

  lemma StepIsHeld(cfg: Settings, m: Machine, e: Event)
    requires HeldInv(cfg, m) && Enabled(m, e)
    ensures HeldInv(cfg, Step(cfg, m, e))
  {
    match e
    case Elapse(later) => ElapseIsHeld(cfg, m, later);
    case Look(unit, record) => LookIsHeld(cfg, m, unit, record);
    case Choose => ChooseIsHeld(cfg, m);
    case Command(ok) => CommandIsHeld(cfg, m, ok);
    case Poll(shown, record) => PollIsHeld(cfg, m, shown, record);
    case TimeOut => TimeOutIsHeld(cfg, m);
    case Crash => CrashIsHeld(cfg, m);
    case Reboot(now) => RebootIsHeld(cfg, m, now);
    case Save => SavingIsHeld(cfg, m, e);
    case Charge => SavingIsHeld(cfg, m, e);
    case _ =>
  }

  lemma {:induction false} RunIsHeld(cfg: Settings, start: Machine, events: seq<Event>)
    requires HeldInv(cfg, start) && Run(cfg, start, events).Some?
    ensures HeldInv(cfg, Run(cfg, start, events).value)
  {
    if events != [] {
      var n := |events| - 1;
      RunIsHeld(cfg, start, events[..n]);
      StepIsHeld(cfg, Run(cfg, start, events[..n]).value, events[n]);
    }
  }

  lemma ReachableIsHeld(cfg: Settings, events: seq<Event>, m: Machine)
    requires Reaches(cfg, events, m)
    ensures HeldInv(cfg, m)
  {
    var now: Reading, exits: seq<Exit> :|
      Run(cfg, Installed(now, exits), events) == Some(m) && ValidReading(now) && ValidExits(exits);
    assert ExitsOnlyFrom(exits, BootsOf(exits));
    RunIsHeld(cfg, Installed(now, exits), events);
  }

  /**
   * A pass holds against the bridge at least all the evidence of the current boot inside the
   * failure window: what its looks saw since the last ready sighting or verified recovery.
   */
  lemma FreshEvidenceIsHeld(cfg: Settings, events: seq<Event>, m: Machine)
    requires Reaches(cfg, events, m) && m.pc != Idle && m.now.boot.Some?
    ensures var boot, after := m.now.boot.value, m.now.t - cfg.failureWindow;
            && Select(m.mem.bleFailures, boot, after) == Select(Evidence(m.h.log + m.h.unsaved), boot, after)
            && |Select(Evidence(m.h.log + m.h.unsaved), boot, after)| <= |m.mem.bleFailures|
  {
    ReachableIsHeld(cfg, events, m);
    SelectedAreFewer(m.mem.bleFailures, m.now.boot.value, m.now.t - cfg.failureWindow);
  }

  lemma {:induction false} SelectedAreFewer(stamps: seq<Stamp>, boot: string, after: real)
    ensures |Select(stamps, boot, after)| <= |stamps|
  {
    if stamps != [] {
      SelectedAreFewer(stamps[..|stamps| - 1], boot, after);
    }
  }

  // ---- Every choice -------------------------------------------------------------

  /** The look found nothing to act on. */
  ghost predicate Quiet(seen: Glance) {
    seen.SawReady() || seen.Misconfigured()
  }

  /** Fewer resets than allowed lie inside both windows. */
  ghost predicate HasResetsLeft(cfg: Settings, s: Saved, now: Reading) {
    && |Recent(s.resets, now, cfg.shortWindow)| < cfg.maxResetsShort
    && |Recent(s.resets, now, cfg.longWindow)| < cfg.maxResetsLong
  }

  /** Why an unlatched pass latches, told from the notes and the failures held. */
  ghost function LatchReason(cfg: Settings, m: Machine): (reason: Option<string>) {
    var notes := m.h.log + m.h.unsaved;
    if StartupStreak(notes) >= 6 then Some("startup_failure_budget_exhausted")
    else if |m.mem.bleFailures| >= cfg.failuresToReset then
      if HasResetsLeft(cfg, m.mem, m.now) then None else Some("budget_exhausted")
    else if m.h.seen.unit.activeState == Failed && PlainStreak(notes) >= 3 then Some("bridge_keeps_failing")
    else None
  }

  /** The choice made, by where the pass goes on. */
  ghost predicate Chooses(cfg: Settings, m: Machine, n: Machine) {
    var notes, seen, latched := m.h.log + m.h.unsaved, m.h.seen, m.mem.recoveryFailed;
    var acts := !latched && !Quiet(seen);
    var enough := |m.mem.bleFailures| >= cfg.failuresToReset;
    && (n.pc == Saving(StoppingForGood) && n.mem == m.mem <==>
          latched && m.mem.terminalStopPending && !Quiet(seen))
    && (n.mem.recoveryFailed && !latched <==> acts && LatchReason(cfg, m).Some?)
    && (acts && LatchReason(cfg, m).Some? ==>
          n.pc == Saving(StoppingForGood) && n.mem.terminalStopPending && Some(n.mem.reason) == LatchReason(cfg, m))
    && (n.pc == Saving(Charging) <==>
          acts && StartupStreak(notes) < 6 && enough && HasResetsLeft(cfg, m.mem, m.now))
    && (n.pc == ResettingPlain <==>
          acts && StartupStreak(notes) < 6 && !enough && seen.unit.activeState == Failed && PlainStreak(notes) < 3
          && m.mem.plainRestarts == [])
    && (n.pc == Saving(Idle) <==>
          || Quiet(seen) || (latched && !m.mem.terminalStopPending)
          || (acts && StartupStreak(notes) < 6 && !enough
              && (seen.unit.activeState != Failed || (PlainStreak(notes) < 3 && m.mem.plainRestarts != []))))
  }

  lemma ChoiceIsExact(cfg: Settings, m: Machine)
    requires m.pc.Choosing? && (m.mem.terminalStopPending ==> m.mem.recoveryFailed)
    requires m.h.seen.unit == m.pc.unit && m.h.seen.SawReady() == ReadyInstance(m.pc.record, m.pc.unit).Some?
    requires m.mem.startupFailureStreak == StartupStreak(m.h.log + m.h.unsaved)
    requires m.mem.plainRestartStreak == PlainStreak(m.h.log + m.h.unsaved)
    ensures Chooses(cfg, m, ChooseStep(cfg, m))
  {
  }

  /**
   * Every choice, exactly, in every reachable state: a latched pass retries a pending stop; an
   * unlatched one that saw the bridge neither ready nor misconfigured latches on six failed
   * startups in a row, on enough failures without a reset left, or on a bridge systemd gave up on
   * after three plain restarts; it resets on enough failures with a reset left, restarts a bridge
   * systemd gave up on if none of the last half hour is known, and does nothing otherwise.
   */
  lemma EveryChoiceExactly(cfg: Settings, events: seq<Event>, m: Machine)
    requires cfg.Valid() && Reaches(cfg, events, m) && m.pc.Choosing?
    ensures Chooses(cfg, m, ChooseStep(cfg, m))
  {
    ReachableChoice(cfg, events, m);
    ChoiceIsExact(cfg, m);
  }

  lemma ReachableChoice(cfg: Settings, events: seq<Event>, m: Machine)
    requires cfg.Valid() && Reaches(cfg, events, m) && m.pc.Choosing?
    ensures m.mem.terminalStopPending ==> m.mem.recoveryFailed
    ensures m.h.seen.unit == m.pc.unit && m.h.seen.SawReady() == ReadyInstance(m.pc.record, m.pc.unit).Some?
    ensures m.mem.startupFailureStreak == StartupStreak(m.h.log + m.h.unsaved)
    ensures m.mem.plainRestartStreak == PlainStreak(m.h.log + m.h.unsaved)
  {
    var now: Reading, exits: seq<Exit> :|
      Run(cfg, Installed(now, exits), events) == Some(m) && ValidReading(now) && ValidExits(exits);
    InstalledIsInv(cfg, now, exits);
    RunKeepsEvidence(cfg, Installed(now, exits), events);
    ReachableIsInv(cfg, events, m);
  }

  /**
   * Enough evidence moves the supervisor: if the looks of this boot saw at least
   * `failuresToReset` pieces of it inside the failure window, an unlatched pass that found the
   * bridge neither ready nor misconfigured charges a reset, or latches.
   */
  lemma EnoughEvidenceActs(cfg: Settings, events: seq<Event>, m: Machine)
    requires cfg.Valid() && Reaches(cfg, events, m) && m.pc.Choosing? && m.now.boot.Some?
    requires !m.mem.recoveryFailed && !m.h.seen.SawReady() && !m.h.seen.Misconfigured()
    requires |Select(Evidence(m.h.log + m.h.unsaved), m.now.boot.value, m.now.t - cfg.failureWindow)|
             >= cfg.failuresToReset
    ensures var n := ChooseStep(cfg, m);
            n.pc == Saving(Charging) || (n.mem.recoveryFailed && n.pc == Saving(StoppingForGood))
  {
    EveryChoiceExactly(cfg, events, m);
    FreshEvidenceIsHeld(cfg, events, m);
  }

  // ---- When a wait ends ----------------------------------------------------------

  /** What a wait is for. */
  ghost predicate EndsWait(m: Machine, shown: Option<Properties>, record: Option<Record>) {
    && shown.Some?
    && var unit := shown.value;
       match m.pc
       case AwaitBluetooth => unit.activeState == Active
       case Verifying =>
         && record.Some? && record.value.alive && unit.mainPid == Some(record.value.pid)
         && record.value.phase == Ready && !m.h.seen.Trusts(record.value.instance)
       case _ => unit.mainPid == Some(0) && (unit.activeState == Inactive || unit.activeState == Failed)
  }

  /**
   * Every wait ends exactly when it should: the wait for Bluetooth when it is active, the wait for
   * a stop when the bridge has no process and is inactive or failed, and the wait for the recovered
   * bridge when it has a ready, trusted record of another instance than the pass began with.
   */
  lemma WaitsEndExactly(cfg: Settings, events: seq<Event>, m: Machine, shown: Option<Properties>,
      record: Option<Record>)
    requires Reaches(cfg, events, m) && Waits(m.pc) && ValidRecord(record)
    ensures PollStep(m, shown, record).pc != m.pc <==> EndsWait(m, shown, record)
    ensures !EndsWait(m, shown, record) ==> PollStep(m, shown, record) == m
  {
    ReachableNamesLook(cfg, events, m);
  }

  lemma ReachableNamesLook(cfg: Settings, events: seq<Event>, m: Machine)
    requires Reaches(cfg, events, m)
    ensures m.pc == Verifying ==> Names(m.previous, m.h.seen)
  {
    ReachableIsInv(cfg, events, m);
  }

  // ---- When the latch clears -----------------------------------------------------

  lemma StreakStillReady(log: seq<Note>, k: nat, j: nat, instance: string)
    requires k < j <= |log| && log[k].Sighting?
    requires forall i :: k <= i < |log| && log[i].Sighting? ==> log[i].ready == Some(instance)
    ensures LatestReady(log[..j]) == Some(instance)
    decreases j
  {
    var n := j - 1;
    assert log[..j][..n] == log[..n];
    if !log[n].Sighting? {
      StreakStillReady(log, k, n, instance);
    }
  }

  /** There is one streak to a list of notes. */
  lemma StreakIsUnique(log: seq<Note>, k: nat, instance: string, at: Stamp, j: nat, other: string, first: Stamp)
    requires StreakFrom(log, k, instance, at) && StreakFrom(log, j, other, first)
    ensures k == j && at == first
  {
    if k < j {
      StreakStillReady(log, k, j, instance);
    } else if j < k {
      StreakStillReady(log, j, k, other);
    }
  }

  lemma WatchedForExactly(log: seq<Note>, k: nat, instance: string, at: Stamp, seconds: real)
    requires StreakFrom(log, k, instance, at) && log[|log| - 1].Sighting?
    ensures WatchedFor(log, seconds) <==> Apart(at, log[|log| - 1].at, seconds)
  {
    if WatchedFor(log, seconds) {
      var j: nat, other: string, first: Stamp :|
        StreakFrom(log, j, other, first) && Apart(first, log[|log| - 1].at, seconds);
      StreakIsUnique(log, k, instance, at, j, other, first);
    }
  }

  /** A look adds its note to the streak of the state, begins a streak, or ends it. */
  lemma LookIsWatched(log: seq<Note>, s: Saved, n: Note, seconds: real)
    requires Watched(log, s.readyInstance, s.readySince) && n.Sighting? && seconds > 0.0
    ensures WatchedFor(log + [n], seconds) <==>
            n.ready == Some(s.readyInstance) && s.readySince.Some? && Apart(s.readySince.value, n.at, seconds)
  {
    var notes := log + [n];
    NoteGrows(log, n);
    if n.ready == Some(s.readyInstance) && s.readySince.Some? {
      var k: nat :| StreakFrom(log, k, s.readyInstance, s.readySince.value);
      StreakGrows(log, k, s.readyInstance, s.readySince.value, n);
      WatchedForExactly(notes, k, s.readyInstance, s.readySince.value, seconds);
    } else if n.ready.Some? {
      NewStreak(log, s, n);
      WatchedForExactly(notes, |log|, n.ready.value, n.at, seconds);
    } else {
      assert notes[|log|] == n;
    }
  }

  lemma NewStreak(log: seq<Note>, s: Saved, n: Note)
    requires Watched(log, s.readyInstance, s.readySince) && n.Sighting? && n.ready.Some?
    requires n.ready != Some(s.readyInstance) || s.readySince.None?
    ensures StreakFrom(log + [n], |log|, n.ready.value, n.at)
  {
    assert (log + [n])[..|log|] == log;
    if s.readySince.Some? {
      var k: nat :| StreakFrom(log, k, s.readyInstance, s.readySince.value);
      StreakEndsReady(log, k, s.readyInstance, s.readySince.value);
    }
  }

  /**
   * The latch clears exactly when it may: a look leaves it set unless no stop is pending and every
   * look has seen this one instance ready since one at least `healthyResetSeconds` earlier.
   */
  lemma LatchClearsExactly(cfg: Settings, events: seq<Event>, m: Machine, unit: Properties, record: Option<Record>)
    requires cfg.Valid() && Reaches(cfg, events, m) && Enabled(m, Look(unit, record))
    ensures var n := LookStep(cfg, m, unit, record);
            n.mem.recoveryFailed <==>
            m.disk.recoveryFailed
            && !(!m.disk.terminalStopPending && WatchedFor(n.h.log + n.h.unsaved, cfg.healthyResetSeconds))
  {
    var n := LookStep(cfg, m, unit, record);
    ReachableIsWatched(cfg, events, m);
    LookIsWatched(m.h.log, m.disk, n.h.unsaved[0], cfg.healthyResetSeconds);
    ObservedLatch(m.disk, unit, record, m.exits, m.now, cfg);
  }

  lemma ReachableIsWatched(cfg: Settings, events: seq<Event>, m: Machine)
    requires Reaches(cfg, events, m)
    ensures Watched(m.h.log, m.disk.readyInstance, m.disk.readySince)
  {
    ReachableIsInv(cfg, events, m);
  }

  lemma ObservedLatch(s: Saved, unit: Properties, record: Option<Record>, exits: seq<Exit>, now: Reading, cfg: Settings)
    ensures Observed(s, unit, record, exits, now, cfg).recoveryFailed <==>
            s.recoveryFailed
            && !(!s.terminalStopPending && ReadyInstance(record, unit) == Some(s.readyInstance) && s.readySince.Some?
                 && Apart(s.readySince.value, now.Mark(), cfg.healthyResetSeconds))
  {
  }
}
