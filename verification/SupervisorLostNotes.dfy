/**
 * The interruptions the supervisor's promises do not survive: for each, a run from an
 * installation that breaks it, and so the exact condition under which it holds.
 */
module SupervisorLostNotes {
  import opened Basics
  import opened SupervisorState
  import opened SupervisorMachine
  import opened SupervisorRuns
  import opened SupervisorInterruptions
  import opened SupervisorShortWindow

  const STOPPED := Properties(Inactive, Some(0), false, Some(0))
  const GAVE_UP := Properties(Failed, Some(0), false, Some(75))

  function ReadyRecord(n: nat): Record
    requires n < 10
  {
    Record(Instance(n), 1, Ready, 0.0, true, 0)
  }

  // ---- Building runs step by step ----------------------------------------------

  /** These events lead to this machine, these notes happened, and interruptions were this careful. */
  ghost predicate Trail(cfg: Settings, care: Care, start: Machine, events: seq<Event>, m: Machine, notes: seq<Note>) {
    Run(cfg, start, events) == Some(m) && Happened(cfg, start, events) == notes && Careful(cfg, care, start, events)
  }

  lemma TrailGrows(cfg: Settings, care: Care, start: Machine, events: seq<Event>, m: Machine, notes: seq<Note>,
      e: Event)
    requires Trail(cfg, care, start, events, m, notes) && Enabled(m, e)
    requires Interrupts(e) ==> !Loses(care, m.h.unsaved)
    ensures Trail(cfg, care, start, events + [e], Step(cfg, m, e), Noted(cfg, notes, m, e))
  {
    assert (events + [e])[..|events|] == events;
  }

  /** A trail that can go on: its events, where it is, and what happened. */
  datatype Point = Point(events: seq<Event>, m: Machine, notes: seq<Note>)

  ghost predicate On(cfg: Settings, care: Care, start: Machine, p: Point) {
    Trail(cfg, care, start, p.events, p.m, p.notes)
  }

  ghost function Next(cfg: Settings, p: Point, e: Event): Point
    requires Enabled(p.m, e)
  {
    Point(p.events + [e], Step(cfg, p.m, e), Noted(cfg, p.notes, p.m, e))
  }

  lemma GoOn(cfg: Settings, care: Care, start: Machine, p: Point, e: Event)
    requires On(cfg, care, start, p) && Enabled(p.m, e) && (Interrupts(e) ==> !Loses(care, p.m.h.unsaved))
    ensures On(cfg, care, start, Next(cfg, p, e))
  {
    TrailGrows(cfg, care, start, p.events, p.m, p.notes, e);
  }

  /** The next command succeeds. */
  lemma PassCommands(cfg: Settings, care: Care, start: Machine, p: Point) returns (q: Point)
    requires On(cfg, care, start, p) && CommandAt(p.m.pc).Some?
    ensures On(cfg, care, start, q) && q.m == CommandStep(p.m, true) && q.notes == p.notes
  {
    GoOn(cfg, care, start, p, Event.Command(true));
    q := Next(cfg, p, Event.Command(true));
  }

  /** The unit is shown to the next poll of a pass that does not wait for a new instance. */
  lemma PassIsShown(cfg: Settings, care: Care, start: Machine, p: Point, unit: Properties) returns (q: Point)
    requires On(cfg, care, start, p) && p.m.pc != Verifying && (Waits(p.m.pc) || p.m.pc == CheckLimit)
    ensures On(cfg, care, start, q) && q.m == PollStep(p.m, Some(unit), None) && q.notes == p.notes
  {
    GoOn(cfg, care, start, p, Poll(Some(unit), None));
    q := Next(cfg, p, Poll(Some(unit), None));
  }

  lemma PassSaves(cfg: Settings, care: Care, start: Machine, p: Point) returns (q: Point)
    requires On(cfg, care, start, p) && p.m.pc.Saving?
    ensures On(cfg, care, start, q) && q.m == Persist(p.m).(pc := p.m.pc.after) && q.notes == p.notes
  {
    GoOn(cfg, care, start, p, Save);
    q := Next(cfg, p, Save);
  }

  // ---- A fourth plain restart -----------------------------------------------------

  /** A fresh state file, between passes. */
  ghost predicate Untouched(m: Machine) {
    m.pc == Idle && m.disk == NEW_STATE && m.exits == [] && m.h.unsaved == []
  }

  lemma GaveUpIsRestarted(cfg: Settings, now: Reading)
    requires cfg.Valid()
    ensures var s := Observed(NEW_STATE, GAVE_UP, None, [], now, cfg);
            s == NEW_STATE && Decide(s, GAVE_UP, None, now, cfg).action == Restart
  {
    assert NEW_STATE.bleFailures + BleStamps([]) == [];
  }

  /** A pass that restarts the bridge, and crashes before it saves that. */
  lemma LostRestart(cfg: Settings, start: Machine, p: Point) returns (q: Point)
    requires cfg.Valid() && On(cfg, AnyTime, start, p) && Untouched(p.m)
    ensures On(cfg, AnyTime, start, q) && Untouched(q.m) && RestartsBegun(q.notes) == RestartsBegun(p.notes) + 1
  {
    var look := Look(GAVE_UP, None);
    GaveUpIsRestarted(cfg, p.m.now);
    GoOn(cfg, AnyTime, start, p, look);
    var one := Next(cfg, p, look);
    GoOn(cfg, AnyTime, start, one, Choose);
    var two := Next(cfg, one, Choose);
    q := RestartThenCrash(cfg, start, two);
    OneMoreNote(p.notes, SightingOf(NEW_STATE, GAVE_UP, None, [], p.m.now, cfg));
    OneMoreNote(one.notes, Restarted(p.m.now.Mark()));
  }

  /** Both commands succeed, and then the pass is gone. */
  lemma RestartThenCrash(cfg: Settings, start: Machine, p: Point) returns (q: Point)
    requires On(cfg, AnyTime, start, p) && p.m.pc == ResettingPlain
    ensures On(cfg, AnyTime, start, q) && q.notes == p.notes
    ensures q.m.pc == Idle && q.m.disk == p.m.disk && q.m.exits == p.m.exits && q.m.h.unsaved == []
  {
    var one := PassCommands(cfg, AnyTime, start, p);
    var two := PassCommands(cfg, AnyTime, start, one);
    GoOn(cfg, AnyTime, start, two, Crash);
    q := Next(cfg, two, Crash);
  }

  /** Four passes in a row each restart the bridge and crash before saving it. */
  lemma FourthRestart(cfg: Settings) returns (events: seq<Event>)
    requires cfg.Valid()
    ensures Runs(cfg, FIRST, [], events)
    ensures RestartsBegun(Happened(cfg, Installed(FIRST, []), events)) == MAX_PLAIN_RESTART_STREAK + 1
    ensures !RestartsKept(cfg, AnyTime, FIRST, [], events)
  {
    var start := Installed(FIRST, []);
    var p := Point([], start, []);
    var one := LostRestart(cfg, start, p);
    var two := LostRestart(cfg, start, one);
    var three := LostRestart(cfg, start, two);
    var four := LostRestart(cfg, start, three);
    events := four.events;
  }

  /**
   * Three plain restarts are the limit, in every run, exactly when no interruption comes between a
   * restart and its save.
   */
  lemma RestartLimitHoldsExactly(cfg: Settings, care: Care)
    requires cfg.Valid()
    ensures (forall now: Reading, exits: seq<Exit>, events: seq<Event> :: RestartsKept(cfg, care, now, exits, events))
            <==> care != AnyTime
  {
    if care == AnyTime {
      var events := FourthRestart(cfg);
    } else {
      forall now: Reading, exits: seq<Exit>, events: seq<Event> ensures RestartsKept(cfg, care, now, exits, events) {
        AtMostThreeRestarts(cfg, care, now, exits, events);
      }
    }
  }

  // ---- A latch cleared in spite of a look ------------------------------------------

  const EXIT_79 := Exit(FIRST.Mark(), Exited, EXIT_STARTUP_FAILED)

  function Failures(n: nat): (exits: seq<Exit>)
    ensures |exits| == n
  {
    if n == 0 then [] else Failures(n - 1) + [EXIT_79]
  }

  lemma {:induction false} FailuresCount(n: nat)
    ensures StartupExits(Failures(n)) == n && BleStamps(Failures(n)) == [] && ValidExits(Failures(n))
  {
    if n > 0 {
      FailuresCount(n - 1);
      assert Failures(n)[..n - 1] == Failures(n - 1);
    }
  }

  /** Latched, stopped for good, and not watching anything. */
  ghost predicate Parked(m: Machine) {
    && m.pc == Idle && m.disk.recoveryFailed && !m.disk.terminalStopPending && m.disk.readySince.None?
    && m.h.unsaved == [] && m.now == FIRST
  }

  lemma SixFailuresLatch(cfg: Settings)
    ensures var s := Observed(NEW_STATE, RUNNING, None, Failures(6), FIRST, cfg);
            && !s.recoveryFailed && s.readySince.None?
            && Decide(s, RUNNING, None, FIRST, cfg).action == Latch
  {
    FailuresCount(6);
  }

  /** Six startup exits, and the pass that latches. */
  lemma LatchingLook(cfg: Settings, care: Care) returns (p: Point)
    requires cfg.Valid()
    ensures On(cfg, care, Installed(FIRST, Failures(6)), p) && p.m.pc == Saving(StoppingForGood) && p.m.now == FIRST
    ensures p.m.mem.recoveryFailed && p.m.mem.readySince.None? && |p.notes| == 1 && p.notes[0].Sighting?
  {
    var start := Installed(FIRST, Failures(6));
    var zero := Point([], start, []);
    SixFailuresLatch(cfg);
    GoOn(cfg, care, start, zero, Look(RUNNING, None));
    var one := Next(cfg, zero, Look(RUNNING, None));
    assert one.m.mem == Observed(NEW_STATE, RUNNING, None, Failures(6), FIRST, cfg);
    p := LatchIsChosen(cfg, care, start, one);
  }

  lemma LatchIsChosen(cfg: Settings, care: Care, start: Machine, p: Point) returns (q: Point)
    requires On(cfg, care, start, p) && p.m.pc.Choosing? && p.m.mem.readySince.None?
    requires Decide(p.m.mem, p.m.pc.unit, p.m.pc.record, p.m.now, cfg).action == Latch
    ensures On(cfg, care, start, q) && q.m.pc == Saving(StoppingForGood) && q.m.now == p.m.now
    ensures q.m.mem.recoveryFailed && q.m.mem.readySince.None? && q.notes == p.notes
  {
    GoOn(cfg, care, start, p, Choose);
    q := Next(cfg, p, Choose);
  }

  /** The terminal stop of that pass, seen through. */
  lemma StopForGoodCompletes(cfg: Settings, care: Care, start: Machine, p: Point) returns (q: Point)
    requires On(cfg, care, start, p) && p.m.pc == Saving(StoppingForGood) && p.m.now == FIRST
    requires p.m.mem.recoveryFailed && p.m.mem.readySince.None?
    ensures On(cfg, care, start, q) && Parked(q.m) && q.notes == p.notes
  {
    var one := PassSaves(cfg, care, start, p);
    var two := PassCommands(cfg, care, start, one);
    q := StopIsVerified(cfg, care, start, two);
  }

  lemma StopIsVerified(cfg: Settings, care: Care, start: Machine, p: Point) returns (q: Point)
    requires On(cfg, care, start, p) && p.m.pc == AwaitStoppedForGood && p.m.now == FIRST && p.m.h.unsaved == []
    requires p.m.mem.recoveryFailed && p.m.mem.readySince.None?
    ensures On(cfg, care, start, q) && Parked(q.m) && q.notes == p.notes
  {
    var one := PassIsShown(cfg, care, start, p, STOPPED);
    q := PassSaves(cfg, care, start, one);
  }

  /** The latch is on, and a ready instance is watched since the start. */
  ghost predicate Watching(m: Machine) {
    && m.pc == Idle && m.disk.recoveryFailed && !m.disk.terminalStopPending && m.h.unsaved == []
    && m.disk.readyInstance == Instance(0) && m.disk.readySince == Some(FIRST.Mark())
  }

  lemma WatchBegins(cfg: Settings, care: Care, start: Machine, p: Point) returns (q: Point)
    requires On(cfg, care, start, p) && Parked(p.m)
    ensures On(cfg, care, start, q) && Watching(q.m) && q.m.now == FIRST && p.notes <= q.notes
  {
    var look := Look(RUNNING, Some(ReadyRecord(0)));
    GoOn(cfg, care, start, p, look);
    q := LatchedPassEnds(cfg, care, start, Next(cfg, p, look));
  }

  /** A latched pass with no stop pending only saves what it saw. */
  lemma LatchedPassEnds(cfg: Settings, care: Care, start: Machine, p: Point) returns (q: Point)
    requires On(cfg, care, start, p) && p.m.pc.Choosing? && p.m.mem.recoveryFailed && !p.m.mem.terminalStopPending
    ensures On(cfg, care, start, q) && q.m.pc == Idle && q.m.disk == p.m.mem && q.m.h.unsaved == []
    ensures q.m.now == p.m.now && q.notes == p.notes
  {
    GoOn(cfg, care, start, p, Choose);
    q := PassSaves(cfg, care, start, Next(cfg, p, Choose));
  }

  function Later(seconds: real): Reading {
    Reading(FIRST.boot, seconds, seconds, FIRST.monotonic + seconds)
  }

  /** Just before the hour is over the bridge is seen not ready, and the pass crashes. */
  lemma UnreadyLookIsLost(cfg: Settings, care: Care, start: Machine, p: Point) returns (q: Point)
    requires cfg.Valid() && (care == AnyTime || care == SparesRestarts)
    requires On(cfg, care, start, p) && Watching(p.m) && p.m.now == FIRST
    ensures On(cfg, care, start, q) && Watching(q.m) && q.m.now == Later(cfg.healthyResetSeconds - 1.0)
    ensures q.notes != [] && q.notes[|q.notes| - 1].Sighting? && q.notes[|q.notes| - 1].ready.None?
  {
    var wait := Elapse(Later(cfg.healthyResetSeconds - 1.0));
    GoOn(cfg, care, start, p, wait);
    q := LookThenCrash(cfg, care, start, Next(cfg, p, wait), RUNNING, None);
  }

  /** The pass is gone before it saves its look. */
  lemma LookThenCrash(cfg: Settings, care: Care, start: Machine, p: Point, unit: Properties, record: Option<Record>)
    returns (q: Point)
    requires (care == AnyTime || care == SparesRestarts) && ValidRecord(record)
    requires On(cfg, care, start, p) && p.m.pc == Idle
    ensures On(cfg, care, start, q) && q.m.pc == Idle && q.m.disk == p.m.disk && q.m.now == p.m.now
            && q.m.h.unsaved == []
    ensures q.notes == p.notes + [SightingOf(p.m.disk, unit, record, p.m.exits, p.m.now, cfg)]
  {
    var look := Look(unit, record);
    GoOn(cfg, care, start, p, look);
    var one := Next(cfg, p, look);
    GoOn(cfg, care, start, one, Crash);
    q := Next(cfg, one, Crash);
  }

  /** A second later the next pass clears the latch. */
  lemma NextLookClears(cfg: Settings, care: Care, start: Machine, p: Point) returns (q: Point)
    requires cfg.Valid() && On(cfg, care, start, p) && Watching(p.m) && p.m.now == Later(cfg.healthyResetSeconds - 1.0)
    ensures On(cfg, care, start, q) && Clears(cfg, q.m, Save)
    ensures exists n: Note :: q.notes == p.notes + [n] && n.Sighting? && n.at == Later(cfg.healthyResetSeconds).Mark()
  {
    var wait := Elapse(Later(cfg.healthyResetSeconds));
    GoOn(cfg, care, start, p, wait);
    var one := Next(cfg, p, wait);
    var look := Look(RUNNING, Some(ReadyRecord(0)));
    GoOn(cfg, care, start, one, look);
    var two := Next(cfg, one, look);
    assert two.notes == p.notes + [SightingOf(one.m.disk, RUNNING, Some(ReadyRecord(0)), one.m.exits, one.m.now, cfg)];
    q := ClearedPassGoesOn(cfg, care, start, two);
  }

  /** A pass whose look cleared the latch will save that. */
  lemma ClearedPassGoesOn(cfg: Settings, care: Care, start: Machine, p: Point) returns (q: Point)
    requires On(cfg, care, start, p) && p.m.pc.Choosing? && p.m.disk.recoveryFailed && !p.m.mem.recoveryFailed
    requires ReadyInstance(p.m.pc.record, p.m.pc.unit).Some?
    ensures On(cfg, care, start, q) && Clears(cfg, q.m, Save) && q.notes == p.notes
  {
    GoOn(cfg, care, start, p, Choose);
    q := Next(cfg, p, Choose);
  }

  /** After an unready look, one ready look alone is not an hour of looks. */
  lemma OneLookIsNotEnough(cfg: Settings, notes: seq<Note>, n: Note)
    requires cfg.Valid() && notes != [] && n.Sighting? && n.at.boot.Some?
    requires notes[|notes| - 1].Sighting? && notes[|notes| - 1].ready.None?
    ensures !LookedLongEnough(cfg, Looks(notes + [n]))
  {
    OneMoreNote(notes, n);
    var looks, before := Looks(notes + [n]), Looks(notes);
    assert before[|before| - 1] == notes[|notes| - 1];
    forall k: nat, instance: string ensures !LookedSince(cfg, looks, k, instance) {
      assert looks[|before| - 1].ready.None?;
    }
  }

  /**
   * The latch cleared although a look within the last `healthyResetSeconds` saw the bridge
   * not ready: that look's pass crashed before its save.
   */
  lemma LatchClearsInSpiteOfLook(cfg: Settings, care: Care) returns (events: seq<Event>)
    requires cfg.Valid() && (care == AnyTime || care == SparesRestarts)
    ensures Runs(cfg, FIRST, Failures(6), events) && !LatchKept(cfg, care, FIRST, Failures(6), events, Save)
  {
    var start := Installed(FIRST, Failures(6));
    FailuresCount(6);
    var one := LatchingLook(cfg, care);
    var two := StopForGoodCompletes(cfg, care, start, one);
    var three := WatchBegins(cfg, care, start, two);
    var four := UnreadyLookIsLost(cfg, care, start, three);
    var five := NextLookClears(cfg, care, start, four);
    var n: Note :| five.notes == four.notes + [n] && n.Sighting? && n.at == Later(cfg.healthyResetSeconds).Mark();
    OneLookIsNotEnough(cfg, four.notes, n);
    ClearedTooEarly(cfg, care, five);
    events := five.events;
  }

  lemma ClearedTooEarly(cfg: Settings, care: Care, p: Point)
    requires ValidExits(Failures(6)) && On(cfg, care, Installed(FIRST, Failures(6)), p) && Clears(cfg, p.m, Save)
    requires !LookedLongEnough(cfg, Looks(p.notes))
    ensures Runs(cfg, FIRST, Failures(6), p.events) && !LatchKept(cfg, care, FIRST, Failures(6), p.events, Save)
  {
  }

  /** The latch clears, in every run, only after looks that long, exactly when no interruption loses a look. */
  lemma LatchPromiseHoldsExactly(cfg: Settings, care: Care)
    requires cfg.Valid()
    ensures (forall now: Reading, exits: seq<Exit>, events: seq<Event>, e: Event ::
               LatchKept(cfg, care, now, exits, events, e))
            <==> care == SparesLooks || care == SparesNotes
  {
    if care == SparesLooks || care == SparesNotes {
      forall now: Reading, exits: seq<Exit>, events: seq<Event>, e: Event
          ensures LatchKept(cfg, care, now, exits, events, e) {
        LatchClearsAfterLooking(cfg, care, now, exits, events, e);
      }
    } else {
      var events := LatchClearsInSpiteOfLook(cfg, care);
    }
  }

  // ---- A streak that forgets ---------------------------------------------------------

  /** An exit that a pass consumed before it crashed is not counted. */
  lemma LostExit(cfg: Settings, care: Care) returns (events: seq<Event>)
    requires care == AnyTime || care == SparesRestarts
    ensures Runs(cfg, FIRST, Failures(1), events) && !StreakKept(cfg, care, FIRST, Failures(1), events)
  {
    var start := Installed(FIRST, Failures(1));
    var zero := Point([], start, []);
    FailuresCount(1);
    var one := LookThenCrash(cfg, care, start, zero, RUNNING, None);
    NoteGrows([], SightingOf(NEW_STATE, RUNNING, None, Failures(1), FIRST, cfg));
    events := one.events;
  }

  /** A recovery under way, with a startup exit in the file that nothing has cleared yet. */
  ghost predicate Repairing(p: Point) {
    Repairs(p.m) && p.notes != [] && p.notes[|p.notes| - 1].Sighting?
  }

  ghost predicate Repairs(m: Machine) {
    && m.disk.startupFailureStreak == 1 && m.mem.startupFailureStreak == 1 && m.previous == Some(Instance(0))
    && m.h.unsaved == []
  }

  lemma CommandRepairs(m: Machine)
    requires Repairs(m) && (m.pc == Stopping || m.pc == RestartingBluetooth || m.pc == Starting)
    ensures var n := CommandStep(m, true);
            && Repairs(n)
            && n.pc == if m.pc == Stopping then AwaitStopped
                       else if m.pc == RestartingBluetooth then AwaitBluetooth else Verifying
  {
  }

  lemma ShowingRepairs(m: Machine)
    requires Repairs(m) && (m.pc == AwaitStopped || m.pc == AwaitBluetooth || m.pc == CheckLimit)
    ensures var n := PollStep(m, Some(if m.pc == AwaitStopped then STOPPED else RUNNING), None);
            && Repairs(n)
            && n.pc == if m.pc == AwaitStopped then Dropping
                       else if m.pc == AwaitBluetooth then CheckLimit else Starting
  {
  }

  lemma StuckIsRecovered(cfg: Settings)
    requires cfg.Valid()
    ensures var s := Observed(NEW_STATE, RUNNING, Some(Stuck(0)), Failures(1), FIRST, cfg);
            && s.startupFailureStreak == 1
            && Decide(s, RUNNING, Some(Stuck(0)), FIRST, cfg).action == Recover
  {
    FailuresCount(1);
  }

  lemma RecoveryBegins(cfg: Settings, care: Care) returns (p: Point)
    requires cfg.Valid()
    ensures On(cfg, care, Installed(FIRST, Failures(1)), p) && Repairing(p) && p.m.pc == Charging
  {
    var start := Installed(FIRST, Failures(1));
    var zero := Point([], start, []);
    var look := Look(RUNNING, Some(Stuck(0)));
    StuckIsRecovered(cfg);
    GoOn(cfg, care, start, zero, look);
    var one := Next(cfg, zero, look);
    assert one.m.mem == Observed(NEW_STATE, RUNNING, Some(Stuck(0)), Failures(1), FIRST, cfg);
    p := RecoveryIsChosen(cfg, care, start, one);
  }

  lemma RecoveryIsChosen(cfg: Settings, care: Care, start: Machine, p: Point) returns (q: Point)
    requires On(cfg, care, start, p) && p.m.pc == Choosing(RUNNING, Some(Stuck(0))) && p.m.mem.startupFailureStreak == 1
    requires Decide(p.m.mem, RUNNING, Some(Stuck(0)), p.m.now, cfg).action == Recover
    requires p.notes != [] && p.notes[|p.notes| - 1].Sighting?
    ensures On(cfg, care, start, q) && Repairing(q) && q.m.pc == Charging && q.notes == p.notes
  {
    GoOn(cfg, care, start, p, Choose);
    q := PassSaves(cfg, care, start, Next(cfg, p, Choose));
  }

  /** The next command of the repair succeeds. */
  lemma RepairCommands(cfg: Settings, care: Care, start: Machine, p: Point) returns (q: Point)
    requires On(cfg, care, start, p) && Repairing(p)
    requires p.m.pc == Stopping || p.m.pc == RestartingBluetooth || p.m.pc == Starting
    ensures On(cfg, care, start, q) && Repairing(q) && q.notes == p.notes
    ensures q.m.pc == if p.m.pc == Stopping then AwaitStopped
                      else if p.m.pc == RestartingBluetooth then AwaitBluetooth else Verifying
  {
    q := PassCommands(cfg, care, start, p);
    CommandRepairs(p.m);
  }

  /** The repair is shown the bridge stopped where it waits for that, and running otherwise. */
  lemma RepairIsShown(cfg: Settings, care: Care, start: Machine, p: Point) returns (q: Point)
    requires On(cfg, care, start, p) && Repairing(p)
    requires p.m.pc == AwaitStopped || p.m.pc == AwaitBluetooth || p.m.pc == CheckLimit
    ensures On(cfg, care, start, q) && Repairing(q) && q.notes == p.notes
    ensures q.m.pc == if p.m.pc == AwaitStopped then Dropping
                      else if p.m.pc == AwaitBluetooth then CheckLimit else Starting
  {
    q := PassIsShown(cfg, care, start, p, if p.m.pc == AwaitStopped then STOPPED else RUNNING);
    ShowingRepairs(p.m);
  }

  lemma RepairIsCharged(cfg: Settings, care: Care, start: Machine, p: Point) returns (q: Point)
    requires On(cfg, care, start, p) && Repairing(p) && p.m.pc == Charging
    ensures On(cfg, care, start, q) && Repairing(q) && q.m.pc == Stopping && q.notes == p.notes
  {
    GoOn(cfg, care, start, p, Charge);
    q := Next(cfg, p, Charge);
    assert q.m == ChargeStep(p.m);
  }

  lemma BridgeIsStopped(cfg: Settings, care: Care, start: Machine, p: Point) returns (q: Point)
    requires On(cfg, care, start, p) && Repairing(p) && p.m.pc == Charging
    ensures On(cfg, care, start, q) && Repairing(q) && q.m.pc == Dropping && q.notes == p.notes
  {
    var one := RepairIsCharged(cfg, care, start, p);
    var two := RepairCommands(cfg, care, start, one);
    q := RepairIsShown(cfg, care, start, two);
  }

  lemma PassDropsExits(cfg: Settings, care: Care, start: Machine, p: Point) returns (q: Point)
    requires On(cfg, care, start, p) && p.m.pc == Dropping
    ensures On(cfg, care, start, q) && q.m == p.m.(exits := [], pc := RestartingBluetooth) && q.notes == p.notes
  {
    GoOn(cfg, care, start, p, DropExits);
    q := Next(cfg, p, DropExits);
  }

  lemma BluetoothIsRestarted(cfg: Settings, care: Care, start: Machine, p: Point) returns (q: Point)
    requires On(cfg, care, start, p) && Repairing(p) && p.m.pc == Dropping
    ensures On(cfg, care, start, q) && Repairing(q) && q.m.pc == CheckLimit && q.notes == p.notes
  {
    var one := PassDropsExits(cfg, care, start, p);
    var two := RepairCommands(cfg, care, start, one);
    q := RepairIsShown(cfg, care, start, two);
  }

  lemma BridgeIsStarted(cfg: Settings, care: Care, start: Machine, p: Point) returns (q: Point)
    requires On(cfg, care, start, p) && Repairing(p) && p.m.pc == CheckLimit
    ensures On(cfg, care, start, q) && Repairing(q) && q.m.pc == Verifying && q.notes == p.notes
  {
    var one := RepairIsShown(cfg, care, start, p);
    q := RepairCommands(cfg, care, start, one);
  }

  /** A new instance is seen ready, and the pass crashes before it saves the recovery. */
  lemma RecoveryIsLost(cfg: Settings, care: Care, start: Machine, p: Point) returns (q: Point)
    requires care != SparesNotes && On(cfg, care, start, p) && Repairing(p) && p.m.pc == Verifying
    ensures On(cfg, care, start, q) && q.m.pc == Idle && q.m.disk.startupFailureStreak == 1
    ensures q.notes == p.notes + [Recovered]
  {
    var seen := Poll(Some(RUNNING), Some(ReadyRecord(1)));
    FreshInstance(0);
    assert Instance(1)[0] != Instance(0)[0];
    GoOn(cfg, care, start, p, seen);
    var one := Next(cfg, p, seen);
    assert one.m == PollStep(p.m, Some(RUNNING), Some(ReadyRecord(1))) && one.notes == p.notes + [Recovered];
    assert one.m.h.unsaved == [Recovered] && one.m.disk == p.m.disk;
    q := PassCrashes(cfg, care, start, one);
  }

  lemma PassCrashes(cfg: Settings, care: Care, start: Machine, p: Point) returns (q: Point)
    requires On(cfg, care, start, p) && !Loses(care, p.m.h.unsaved)
    ensures On(cfg, care, start, q) && q.m == CrashStep(p.m) && q.notes == p.notes
  {
    GoOn(cfg, care, start, p, Crash);
    q := Next(cfg, p, Crash);
  }

  /** A verified recovery that was not saved leaves the streak standing. */
  lemma LostRecovery(cfg: Settings, care: Care) returns (events: seq<Event>)
    requires cfg.Valid() && care != SparesNotes
    ensures Runs(cfg, FIRST, Failures(1), events) && !StreakKept(cfg, care, FIRST, Failures(1), events)
  {
    var start := Installed(FIRST, Failures(1));
    var one := RecoveryBegins(cfg, care);
    var two := BridgeIsStopped(cfg, care, start, one);
    var three := BluetoothIsRestarted(cfg, care, start, two);
    var four := BridgeIsStarted(cfg, care, start, three);
    var five := RecoveryIsLost(cfg, care, start, four);
    FailuresCount(1);
    NoteGrows(four.notes, Recovered);
    StreakIsWrong(cfg, care, five);
    events := five.events;
  }

  lemma StreakIsWrong(cfg: Settings, care: Care, p: Point)
    requires ValidExits(Failures(1)) && On(cfg, care, Installed(FIRST, Failures(1)), p) && p.m.pc == Idle
    requires p.m.disk.startupFailureStreak != StartupStreak(p.notes)
    ensures Runs(cfg, FIRST, Failures(1), p.events) && !StreakKept(cfg, care, FIRST, Failures(1), p.events)
  {
  }

  /** The startup streak counts every exit consumed, in every run, exactly when no interruption loses anything. */
  lemma StreakPromiseHoldsExactly(cfg: Settings, care: Care)
    requires cfg.Valid()
    ensures (forall now: Reading, exits: seq<Exit>, events: seq<Event> :: StreakKept(cfg, care, now, exits, events))
            <==> care == SparesNotes
  {
    if care == SparesNotes {
      forall now: Reading, exits: seq<Exit>, events: seq<Event> ensures StreakKept(cfg, care, now, exits, events) {
        StreakCountsEveryExit(cfg, now, exits, events);
      }
    } else {
      var events := LostRecovery(cfg, care);
    }
  }
}
