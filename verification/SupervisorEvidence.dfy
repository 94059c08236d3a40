/**
 * What justifies an action of the supervisor, over every run: a reset needs fresh evidence
 * seen by a look that found the bridge neither ready nor misconfigured; a plain restart
 * needs a bridge systemd gave up on, and no other saved one in the same half hour.
 */
module SupervisorEvidence {
  import opened Basics
  import opened SupervisorState
  import opened SupervisorMachine
  import opened SupervisorBudget
  import opened SupervisorRuns
  import opened SupervisorLooks

  // ---- Evidence -------------------------------------------------------------

  /** Each failure happened within the window before the look, by the clock that applies. */
  ghost predicate AllFresh(failures: seq<Stamp>, look: Stamp, window: real) {
    forall i :: 0 <= i < |failures| ==> !Apart(failures[i], look, window)
  }

  /** The look behind a pass found the bridge not ready, and enough fresh failures. */
  ghost predicate Justified(cfg: Settings, s: Saved, look: Note, misconfigured: bool) {
    && look.Sighting? && look.ready.None? && !misconfigured
    && |s.bleFailures| >= cfg.failuresToReset && AllFresh(s.bleFailures, look.at, cfg.failureWindow)
  }

  ghost predicate EvidenceInv(cfg: Settings, m: Machine) {
    match m.pc
    case Choosing(unit, record) =>
      && |m.h.unsaved| == 1 && m.h.unsaved[0].Sighting? && m.h.unsaved[0].ready == ReadyInstance(record, unit)
      && m.h.unsaved[0].seen == m.h.seen
      && m.h.seen.unit == unit && m.h.seen.record == record
      && AllFresh(m.mem.bleFailures, m.h.unsaved[0].at, cfg.failureWindow)
    case Saving(after) =>
      after == Charging ==> |m.h.unsaved| == 1 && Justified(cfg, m.mem, m.h.unsaved[0], m.h.seen.Misconfigured())
    case Charging =>
      && m.h.log != [] && m.h.unsaved == []
      && Justified(cfg, m.mem, m.h.log[|m.h.log| - 1], m.h.seen.Misconfigured())
    case ResettingPlain =>
      && |m.h.unsaved| == 2 && m.h.unsaved[0].Sighting? && m.h.unsaved[0].ready.None? && m.h.unsaved[0].seen == m.h.seen
      && m.h.seen.unit.activeState == Failed && !m.h.seen.Misconfigured() && |m.mem.bleFailures| < cfg.failuresToReset
    case _ => true
  }

  lemma {:induction false} RecentIsFresh(stamps: seq<Stamp>, now: Reading, window: real)
    ensures AllFresh(Recent(stamps, now, window), now.Mark(), window)
  {
    if stamps != [] {
      RecentIsFresh(stamps[..|stamps| - 1], now, window);
    }
  }

  lemma LookSeesFreshFailures(cfg: Settings, m: Machine, unit: Properties, record: Option<Record>)
    requires cfg.failureWindow > 0.0
    ensures EvidenceInv(cfg, LookStep(cfg, m, unit, record))
  {
    var failures := m.disk.bleFailures + BleStamps(m.exits);
    RecentIsFresh(failures, m.now, cfg.failureWindow);
    assert forall i :: 0 <= i < |LookStep(cfg, m, unit, record).mem.bleFailures| ==>
             var f := LookStep(cfg, m, unit, record).mem.bleFailures[i];
             f in Recent(failures, m.now, cfg.failureWindow) || f == m.now.Mark();
  }

  lemma ChooseKeepsEvidence(cfg: Settings, m: Machine)
    requires EvidenceInv(cfg, m) && m.pc.Choosing?
    ensures EvidenceInv(cfg, ChooseStep(cfg, m))
  {
  }

  lemma ActingKeepsEvidence(cfg: Settings, m: Machine, e: Event)
    requires Enabled(m, e) && (e.Command? || e.Poll? || e.TimeOut? || e.Charge?)
    ensures EvidenceInv(cfg, Step(cfg, m, e))
  {
  }

  lemma OtherStepsKeepEvidence(cfg: Settings, m: Machine, e: Event)
    requires EvidenceInv(cfg, m) && PassInv(m) && Enabled(m, e)
    requires !(e.Look? || e.Choose? || e.Command? || e.Poll? || e.TimeOut? || e.Charge?)
    ensures EvidenceInv(cfg, Step(cfg, m, e))
  {
  }

  lemma StepKeepsEvidence(cfg: Settings, m: Machine, e: Event)
    requires cfg.failureWindow > 0.0 && EvidenceInv(cfg, m) && PassInv(m) && Enabled(m, e)
    ensures EvidenceInv(cfg, Step(cfg, m, e))
  {
    match e
    case Look(unit, record) => LookSeesFreshFailures(cfg, m, unit, record);
    case Choose => ChooseKeepsEvidence(cfg, m);
    case Command(_) => ActingKeepsEvidence(cfg, m, e);
    case Poll(_, _) => ActingKeepsEvidence(cfg, m, e);
    case TimeOut => ActingKeepsEvidence(cfg, m, e);
    case Charge => ActingKeepsEvidence(cfg, m, e);
    case _ => OtherStepsKeepEvidence(cfg, m, e);
  }

  lemma {:induction false} RunKeepsEvidence(cfg: Settings, start: Machine, events: seq<Event>)
    requires cfg.failureWindow > 0.0 && Inv(cfg, start) && EvidenceInv(cfg, start) && Run(cfg, start, events).Some?
    ensures EvidenceInv(cfg, Run(cfg, start, events).value)
  {
    if events != [] {
      var n := |events| - 1;
      RunKeepsEvidence(cfg, start, events[..n]);
      RunKeepsInv(cfg, start, events[..n]);
      StepKeepsEvidence(cfg, Run(cfg, start, events[..n]).value, events[n]);
    }
  }

  // ---- Where the evidence comes from ------------------------------------------

  /** What the saved looks added as evidence since the last ready sighting or verified recovery. */
  ghost function Evidence(log: seq<Note>): (stamps: seq<Stamp>) {
    if log == [] then []
    else
      var before := Evidence(log[..|log| - 1]);
      var last := log[|log| - 1];
      if last.Recovered? || (last.Sighting? && last.ready.Some?) then []
      else before + if last.Sighting? then last.evidence else []
  }

  lemma EvidenceGrows(log: seq<Note>, n: Note)
    ensures Evidence(log + [n]) ==
              if n.Recovered? || (n.Sighting? && n.ready.Some?) then []
              else Evidence(log) + if n.Sighting? then n.evidence else []
  {
    assert (log + [n])[..|log|] == log;
  }

  /** Every failure held against the bridge is a piece of that evidence, and each piece is held at most once. */
  ghost predicate Traced(failures: seq<Stamp>, log: seq<Note>) {
    multiset(failures) <= multiset(Evidence(log))
  }

  ghost predicate TracedInv(m: Machine) {
    && Traced(m.disk.bleFailures, m.h.log)
    && (m.pc != Idle ==> Traced(m.mem.bleFailures, m.h.log + m.h.unsaved))
  }

  lemma {:induction false} RecentIsPart(stamps: seq<Stamp>, now: Reading, window: real)
    ensures multiset(Recent(stamps, now, window)) <= multiset(stamps)
  {
    if stamps != [] {
      var n := |stamps| - 1;
      RecentIsPart(stamps[..n], now, window);
      assert stamps == stamps[..n] + [stamps[n]];
    }
  }

  /** What an observation makes of the failures, in one expression. */
  lemma ObservedFailures(s: Saved, unit: Properties, record: Option<Record>, exits: seq<Exit>, now: Reading,
      cfg: Settings)
    requires ReadyInstance(record, unit).None?
    ensures var trusted := Trusted(record, unit);
            var kept := Recent(s.bleFailures + BleStamps(exits), now, cfg.failureWindow);
            Observed(s, unit, record, exits, now, cfg).bleFailures
            == kept + if trusted.Some? && CountsAsStuck(s, trusted.value, now)
                then Repeated(now.Mark(), cfg.failuresToReset) else []
  {
    assert Recent(s.bleFailures + BleStamps(exits), now, cfg.failureWindow) + []
           == Recent(s.bleFailures + BleStamps(exits), now, cfg.failureWindow);
  }

  /** A ready sighting ends the failures. */
  lemma ObservedReady(s: Saved, unit: Properties, record: Option<Record>, exits: seq<Exit>, now: Reading, cfg: Settings)
    requires ReadyInstance(record, unit).Some?
    ensures Observed(s, unit, record, exits, now, cfg).bleFailures == []
  {
  }

  lemma PartsAddUp(kept: seq<Stamp>, held: seq<Stamp>, exits: seq<Stamp>, stuck: seq<Stamp>, evidence: seq<Stamp>)
    requires multiset(kept) <= multiset(held + exits) && multiset(held) <= multiset(evidence)
    ensures multiset(kept + stuck) <= multiset(evidence + (exits + stuck))
  {
  }

  lemma UnreadyIsTraced(cfg: Settings, held: seq<Stamp>, log: seq<Note>, exits: seq<Stamp>, stuck: seq<Stamp>,
      after: seq<Stamp>, notes: seq<Note>, now: Reading)
    requires Traced(held, log)
    requires after == Recent(held + exits, now, cfg.failureWindow) + stuck
    requires Evidence(notes) == Evidence(log) + (exits + stuck)
    ensures Traced(after, notes)
  {
    RecentIsPart(held + exits, now, cfg.failureWindow);
    PartsAddUp(Recent(held + exits, now, cfg.failureWindow), held, exits, stuck, Evidence(log));
  }

  lemma ObservedIsTraced(
    log: seq<Note>, s: Saved, unit: Properties, record: Option<Record>, exits: seq<Exit>, now: Reading, cfg: Settings)
    requires Traced(s.bleFailures, log)
    ensures Traced(Observed(s, unit, record, exits, now, cfg).bleFailures,
            log + [SightingOf(s, unit, record, exits, now, cfg)])
  {
    EvidenceGrows(log, SightingOf(s, unit, record, exits, now, cfg));
    if ReadyInstance(record, unit).Some? {
      ObservedReady(s, unit, record, exits, now, cfg);
    } else {
      UnreadyLookIsTraced(log, s, unit, record, exits, now, cfg);
    }
  }

  lemma UnreadyLookIsTraced(
    log: seq<Note>, s: Saved, unit: Properties, record: Option<Record>, exits: seq<Exit>, now: Reading, cfg: Settings)
    requires Traced(s.bleFailures, log) && ReadyInstance(record, unit).None?
    ensures Traced(Observed(s, unit, record, exits, now, cfg).bleFailures,
            log + [SightingOf(s, unit, record, exits, now, cfg)])
  {
    var n, trusted := SightingOf(s, unit, record, exits, now, cfg), Trusted(record, unit);
    var stuck := if trusted.Some? && CountsAsStuck(s, trusted.value, now)
        then Repeated(now.Mark(), cfg.failuresToReset) else [];
    var after := Observed(s, unit, record, exits, now, cfg).bleFailures;
    EvidenceGrows(log, n);
    assert n.evidence == BleStamps(exits) + stuck;
    ObservedFailures(s, unit, record, exits, now, cfg);
    UnreadyIsTraced(cfg, s.bleFailures, log, BleStamps(exits), stuck, after, log + [n], now);
  }

  lemma LookKeepsTraced(cfg: Settings, m: Machine, unit: Properties, record: Option<Record>)
    requires TracedInv(m)
    ensures TracedInv(LookStep(cfg, m, unit, record))
  {
    ObservedIsTraced(m.h.log, m.disk, unit, record, m.exits, m.now, cfg);
  }

  /** A step that neither adds notes nor touches the failures. */
  lemma UntouchedIsTraced(m: Machine, n: Machine)
    requires TracedInv(m) && m.pc != Idle
    requires n.disk == m.disk && n.h.log == m.h.log && n.h.unsaved == m.h.unsaved
             && n.mem.bleFailures == m.mem.bleFailures
    ensures TracedInv(n)
  {
  }

  /** A step that adds a note about something else. */
  lemma NotedIsTraced(m: Machine, n: Machine, note: Note)
    requires TracedInv(m) && m.pc != Idle && !note.Sighting?
    requires n.disk == m.disk && n.h.log == m.h.log && n.h.unsaved == m.h.unsaved + [note]
    requires n.mem.bleFailures == if note.Recovered? then [] else m.mem.bleFailures
    ensures TracedInv(n)
  {
    EvidenceGrows(m.h.log + m.h.unsaved, note);
    assert n.h.log + n.h.unsaved == (m.h.log + m.h.unsaved) + [note];
  }

  lemma ChooseKeepsTraced(cfg: Settings, m: Machine)
    requires TracedInv(m) && m.pc.Choosing?
    ensures TracedInv(ChooseStep(cfg, m))
  {
    var n := ChooseStep(cfg, m);
    if Decide(m.mem, m.pc.unit, m.pc.record, m.now, cfg).action == Restart {
      NotedIsTraced(m, n, Restarted(m.now.Mark()));
    } else {
      UntouchedIsTraced(m, n);
    }
  }

  lemma CommandKeepsTraced(m: Machine, ok: bool)
    requires TracedInv(m) && CommandAt(m.pc).Some?
    ensures TracedInv(CommandStep(m, ok))
  {
    UntouchedIsTraced(m, CommandStep(m, ok));
  }

  lemma TimeOutKeepsTraced(cfg: Settings, m: Machine)
    requires TracedInv(m) && Waits(m.pc)
    ensures TracedInv(TimeOutStep(cfg, m))
  {
    TimeOutKeepsFiles(cfg, m);
    UntouchedIsTraced(m, TimeOutStep(cfg, m));
  }

  lemma PollKeepsTraced(m: Machine, shown: Option<Properties>, record: Option<Record>)
    requires TracedInv(m) && m.pc != Idle
    ensures TracedInv(PollStep(m, shown, record))
  {
    var n := PollStep(m, shown, record);
    if m.pc == Verifying && SeesRecovered(m, shown, record) {
      NotedIsTraced(m, n, Recovered);
    } else {
      UntouchedIsTraced(m, n);
    }
  }

  lemma OtherStepsKeepTraced(cfg: Settings, m: Machine, e: Event)
    requires TracedInv(m) && Enabled(m, e) && !(e.Look? || e.Choose? || e.Command? || e.Poll? || e.TimeOut?)
    ensures TracedInv(Step(cfg, m, e))
  {
    EvidenceGrows(m.h.log, CutShort);
    assert m.h.log + [] == m.h.log && (m.h.log + m.h.unsaved) + [] == m.h.log + m.h.unsaved;
  }

  lemma StepKeepsTraced(cfg: Settings, m: Machine, e: Event)
    requires TracedInv(m) && Enabled(m, e)
    ensures TracedInv(Step(cfg, m, e))
  {
    match e
    case Look(unit, record) => LookKeepsTraced(cfg, m, unit, record);
    case Choose => ChooseKeepsTraced(cfg, m);
    case Command(ok) => CommandKeepsTraced(m, ok);
    case TimeOut => TimeOutKeepsTraced(cfg, m);
    case Poll(shown, record) => PollKeepsTraced(m, shown, record);
    case _ => OtherStepsKeepTraced(cfg, m, e);
  }

  lemma {:induction false} RunKeepsTraced(cfg: Settings, start: Machine, events: seq<Event>)
    requires TracedInv(start) && Run(cfg, start, events).Some?
    ensures TracedInv(Run(cfg, start, events).value)
  {
    if events != [] {
      var n := |events| - 1;
      RunKeepsTraced(cfg, start, events[..n]);
      StepKeepsTraced(cfg, Run(cfg, start, events[..n]).value, events[n]);
    }
  }

  /** Only exits 76 are evidence, each once: the stamps of exactly those, in order. */
  lemma {:induction false} OnlyBleExitsCount(exits: seq<Exit>, more: Exit)
    ensures BleStamps(exits + [more])
            == BleStamps(exits) + if more.code == Exited && more.status == "76" then [more.stamp] else []
    ensures more.status == "79" ==> BleStamps(exits + [more]) == BleStamps(exits)
  {
    assert (exits + [more])[..|exits|] == exits;
  }

  /**
   * Where a failure comes from: the look of the k-th note consumed an exit 76 with this stamp, or
   * saw an instance stuck for ten minutes that it had not counted yet; and since then no look saw
   * the bridge ready and no recovery was verified.
   */
  ghost predicate Sourced(log: seq<Note>, f: Stamp, k: nat) {
    && k < |log| && log[k].Sighting?
    && (|| (exists e :: e in log[k].seen.exits && e.code == Exited && e.status == "76" && e.stamp == f)
        || (f == log[k].at && IsStuck(log[k].seen, Counted(log[..k]))))
    && (forall j :: k <= j < |log| ==> log[j] != Recovered && (log[j].Sighting? ==> !log[j].seen.SawReady()))
  }

  lemma {:induction false} BleExitIsThere(exits: seq<Exit>, f: Stamp) returns (e: Exit)
    requires f in BleExits(exits)
    ensures e in exits && e.code == Exited && e.status == "76" && e.stamp == f
  {
    var last := exits[|exits| - 1];
    if last.code == Exited && last.status == "76" && last.stamp == f {
      e := last;
    } else {
      e := BleExitIsThere(exits[..|exits| - 1], f);
    }
  }

  lemma SourceStays(log: seq<Note>, n: Note, f: Stamp, k: nat)
    requires Sourced(log, f, k) && n != Recovered && (n.Sighting? ==> !n.seen.SawReady())
    ensures Sourced(log + [n], f, k)
  {
    assert (log + [n])[..k] == log[..k];
  }

  lemma NewSource(log: seq<Note>, n: Note, f: Stamp)
    requires n.Sighting? && !n.seen.SawReady()
    requires f in BleExits(n.seen.exits) || (f == n.at && IsStuck(n.seen, Counted(log)))
    ensures Sourced(log + [n], f, |log|)
  {
    assert (log + [n])[..|log|] == log;
    if f in BleExits(n.seen.exits) {
      var e := BleExitIsThere(n.seen.exits, f);
    }
  }

  lemma {:induction false} EvidenceIsSourced(cfg: Settings, log: seq<Note>, f: Stamp) returns (k: nat)
    requires AllHonest(cfg, log) && f in Evidence(log)
    ensures Sourced(log, f, k)
  {
    var n := |log| - 1;
    var before, last := log[..n], log[n];
    assert log == before + [last];
    HonestBefore(cfg, log, n);
    assert Honest(cfg, before, last);
    if last.Sighting? {
      HonestAboutReady(cfg, before, last);
    }
    if last.Sighting? && f in last.evidence {
      k := n;
      NewSource(before, last, f);
    } else {
      k := EvidenceIsSourced(cfg, before, f);
      SourceStays(before, last, f, k);
    }
  }

  /**
   * Every reset is charged by a pass whose own, saved look found the bridge neither ready
   * nor failed on its configuration, with at least `failuresToReset` failures inside the
   * failure window; and each of those is an exit 76 a saved look consumed, or a stuck
   * instance it saw, since the last ready sighting or verified recovery, counted once.
   */
  lemma ResetsAreJustified(cfg: Settings, events: seq<Event>, m: Machine)
    requires cfg.Valid() && Reaches(cfg, events, m) && m.pc == Charging
    ensures m.h.log != []
    ensures var look := m.h.log[|m.h.log| - 1];
            && look.Sighting? && look.seen == m.h.seen && !m.h.seen.SawReady() && !m.h.seen.Misconfigured()
            && |m.mem.bleFailures| >= cfg.failuresToReset
            && AllFresh(m.mem.bleFailures, look.at, cfg.failureWindow)
    ensures Traced(m.mem.bleFailures, m.h.log)
    ensures forall f :: f in m.mem.bleFailures ==> exists k: nat :: Sourced(m.h.log, f, k)
  {
    var now: Reading, exits: seq<Exit> :|
      Run(cfg, Installed(now, exits), events) == Some(m) && ValidReading(now) && ValidExits(exits);
    InstalledIsInv(cfg, now, exits);
    RunKeepsEvidence(cfg, Installed(now, exits), events);
    RunKeepsTraced(cfg, Installed(now, exits), events);
    NotesAreHonest(cfg, events, m);
    assert m.h.log + m.h.unsaved == m.h.log;
    JustifiedLook(cfg, m);
    forall f | f in m.mem.bleFailures ensures exists k: nat :: Sourced(m.h.log, f, k) {
      assert f in multiset(m.mem.bleFailures) && f in multiset(Evidence(m.h.log));
      var k := EvidenceIsSourced(cfg, m.h.log, f);
    }
  }

  lemma JustifiedLook(cfg: Settings, m: Machine)
    requires m.pc == Charging && EvidenceInv(cfg, m)
    requires AllHonest(cfg, m.h.log) && LatestLook(m.h.log) == Some(m.h.seen)
    ensures m.h.log != []
    ensures var look := m.h.log[|m.h.log| - 1];
            && look.Sighting? && look.seen == m.h.seen && !m.h.seen.SawReady() && !m.h.seen.Misconfigured()
            && |m.mem.bleFailures| >= cfg.failuresToReset
            && AllFresh(m.mem.bleFailures, look.at, cfg.failureWindow)
  {
    var n := |m.h.log| - 1;
    HonestAboutReady(cfg, m.h.log[..n], m.h.log[n]);
  }

  /**
   * A plain restart begins only for a bridge systemd gave up on, not for its configuration,
   * that the pass saw not ready, and for which there is not enough evidence for a reset.
   */
  lemma RestartsAreJustified(cfg: Settings, events: seq<Event>, m: Machine)
    requires cfg.Valid() && Reaches(cfg, events, m) && m.pc == ResettingPlain
    ensures |m.h.unsaved| == 2 && m.h.unsaved[0].Sighting? && !m.h.seen.SawReady()
    ensures m.h.seen.unit.activeState == Failed && !m.h.seen.Misconfigured()
    ensures |m.mem.bleFailures| < cfg.failuresToReset
  {
    var now: Reading, exits: seq<Exit> :|
      Run(cfg, Installed(now, exits), events) == Some(m) && ValidReading(now) && ValidExits(exits);
    InstalledIsInv(cfg, now, exits);
    RunKeepsEvidence(cfg, Installed(now, exits), events);
    NotesAreHonest(cfg, events, m);
    UnreadyLook(cfg, m);
  }

  lemma UnreadyLook(cfg: Settings, m: Machine)
    requires m.pc == ResettingPlain && EvidenceInv(cfg, m) && AllHonest(cfg, m.h.log + m.h.unsaved)
    ensures |m.h.unsaved| == 2 && m.h.unsaved[0].Sighting? && !m.h.seen.SawReady()
  {
    var notes := m.h.log + m.h.unsaved;
    assert notes[..|m.h.log|] == m.h.log && notes[|m.h.log|] == m.h.unsaved[0];
    HonestAboutReady(cfg, m.h.log, m.h.unsaved[0]);
  }

  // ---- Plain restarts -----------------------------------------------------------

  /** The stamps of the plain restarts among the notes. */
  ghost function RestartStamps(log: seq<Note>): (stamps: seq<Stamp>) {
    if log == [] then []
    else RestartStamps(log[..|log| - 1]) + if log[|log| - 1].Restarted? then [log[|log| - 1].at] else []
  }

  lemma RestartStampsGrow(log: seq<Note>, n: Note)
    ensures RestartStamps(log + [n]) == RestartStamps(log) + if n.Restarted? then [n.at] else []
  {
    assert (log + [n])[..|log|] == log;
  }

  /** A list answers for the restarts among the notes, which are at most one to a window of one boot. */
  ghost predicate Rationed(restarts: seq<Stamp>, log: seq<Note>, now: Reading, boots: set<string>) {
    && OnlyFrom(restarts, boots) && OnlyFrom(RestartStamps(log), boots)
    && SameRecent(restarts, RestartStamps(log), now, PLAIN_RESTART_WINDOW_SECONDS)
    && Budgeted(RestartStamps(log), PLAIN_RESTART_WINDOW_SECONDS, MAX_PLAIN_RESTARTS_PER_WINDOW)
  }

  ghost predicate RationInv(m: Machine) {
    && (m.now.boot.Some? ==> m.now.boot.value in m.h.boots)
    && Rationed(m.disk.plainRestarts, m.h.log, m.now, m.h.boots)
    && (m.pc != Idle ==> Rationed(m.mem.plainRestarts, m.h.log + m.h.unsaved, m.now, m.h.boots))
  }

  lemma RationedLater(restarts: seq<Stamp>, log: seq<Note>, now: Reading, later: Reading, boots: set<string>)
    requires Rationed(restarts, log, now, boots) && now.AtMost(later)
    ensures Rationed(restarts, log, later, boots)
  {
    SameRecentLater(restarts, RestartStamps(log), now, later, PLAIN_RESTART_WINDOW_SECONDS);
  }

  lemma RationedNote(restarts: seq<Stamp>, log: seq<Note>, now: Reading, boots: set<string>, n: Note)
    requires Rationed(restarts, log, now, boots) && !n.Restarted?
    ensures Rationed(restarts, log + [n], now, boots)
  {
    RestartStampsGrow(log, n);
    assert RestartStamps(log) + [] == RestartStamps(log);
  }

  lemma LookKeepsRation(cfg: Settings, m: Machine, unit: Properties, record: Option<Record>)
    requires RationInv(m)
    ensures RationInv(LookStep(cfg, m, unit, record))
  {
    var n := LookStep(cfg, m, unit, record);
    RationedNote(m.disk.plainRestarts, m.h.log, m.now, m.h.boots, n.h.unsaved[0]);
    OnlyFromRecent(m.disk.plainRestarts, m.now, PLAIN_RESTART_WINDOW_SECONDS, m.h.boots);
    if m.now.boot.Some? {
      SelectOfRecent(m.disk.plainRestarts, m.now, PLAIN_RESTART_WINDOW_SECONDS);
    }
    assert n.mem.plainRestarts == Recent(m.disk.plainRestarts, m.now, PLAIN_RESTART_WINDOW_SECONDS);
  }

  /** With none left in the pruned list, one more fits. */
  lemma RationAllows(restarts: seq<Stamp>, log: seq<Note>, now: Reading, boots: set<string>)
    requires Rationed(restarts, log, now, boots) && |restarts| < MAX_PLAIN_RESTARTS_PER_WINDOW
    requires now.boot.Some? ==> now.boot.value in boots
    ensures Rationed(restarts + [now.Mark()], log + [Restarted(now.Mark())], now, boots)
  {
    var window := PLAIN_RESTART_WINDOW_SECONDS;
    RestartStampsGrow(log, Restarted(now.Mark()));
    assert restarts == [];
    SameRecentGrows(restarts, RestartStamps(log), now, window);
    RoomInHistory(restarts, RestartStamps(log), now, window, window, MAX_PLAIN_RESTARTS_PER_WINDOW);
    ChargeFits(RestartStamps(log), now, window, MAX_PLAIN_RESTARTS_PER_WINDOW);
  }

  lemma ChooseKeepsRation(cfg: Settings, m: Machine)
    requires RationInv(m) && m.pc.Choosing?
    ensures RationInv(ChooseStep(cfg, m))
  {
    var n := ChooseStep(cfg, m);
    if Decide(m.mem, m.pc.unit, m.pc.record, m.now, cfg).action != Restart {
      assert n.mem.plainRestarts == m.mem.plainRestarts && n.disk == m.disk && n.now == m.now && n.h == m.h;
    } else {
      RationAllows(m.mem.plainRestarts, m.h.log + m.h.unsaved, m.now, m.h.boots);
      assert m.h.log + (m.h.unsaved + [Restarted(m.now.Mark())]) == (m.h.log + m.h.unsaved) + [Restarted(m.now.Mark())];
    }
  }

  lemma SavingKeepsRation(cfg: Settings, m: Machine, e: Event)
    requires RationInv(m) && Enabled(m, e) && (e.Save? || e.Charge?)
    ensures RationInv(Step(cfg, m, e))
  {
    assert (m.h.log + m.h.unsaved) + [] == m.h.log + m.h.unsaved;
  }

  lemma PollKeepsRation(m: Machine, shown: Option<Properties>, record: Option<Record>)
    requires RationInv(m)
    ensures RationInv(PollStep(m, shown, record))
  {
    PollIsNoted(m, shown, record);
    if m.pc == Verifying {
      RationedNote(m.mem.plainRestarts, m.h.log + m.h.unsaved, m.now, m.h.boots, Recovered);
      assert m.h.log + (m.h.unsaved + [Recovered]) == (m.h.log + m.h.unsaved) + [Recovered];
    }
    SameRation(m, PollStep(m, shown, record));
  }

  /** A step within a pass that notes nothing, or a recovery. */
  lemma SameRation(m: Machine, n: Machine)
    requires RationInv(m) && n.disk == m.disk && n.now == m.now && n.h.log == m.h.log && n.h.boots == m.h.boots
    requires n.mem.plainRestarts == m.mem.plainRestarts
    requires n.pc == Idle || m.pc != Idle
    requires n.pc != Idle ==>
               || n.h.unsaved == m.h.unsaved
               || (n.h.unsaved == m.h.unsaved + [Recovered]
                   && Rationed(m.mem.plainRestarts, m.h.log + n.h.unsaved, m.now, m.h.boots))
    ensures RationInv(n)
  {
  }

  lemma CommandKeepsRation(m: Machine, ok: bool)
    requires RationInv(m) && CommandAt(m.pc).Some?
    ensures RationInv(CommandStep(m, ok))
  {
    CommandIsUnnoted(m, ok);
    SameRation(m, CommandStep(m, ok));
  }

  lemma TimeOutKeepsRation(cfg: Settings, m: Machine)
    requires RationInv(m) && Waits(m.pc)
    ensures RationInv(TimeOutStep(cfg, m))
  {
    var n := TimeOutStep(cfg, m);
    assert n.mem.plainRestarts == m.mem.plainRestarts && n.disk == m.disk && n.now == m.now && n.h == m.h;
  }

  lemma CrashKeepsRation(m: Machine)
    requires RationInv(m)
    ensures RationInv(CrashStep(m))
  {
    RationedNote(m.disk.plainRestarts, m.h.log, m.now, m.h.boots, CutShort);
    assert m.h.log + [] == m.h.log;
  }

  lemma RebootKeepsRation(cfg: Settings, m: Machine, now: Reading)
    requires RationInv(m) && Enabled(m, Reboot(now))
    ensures RationInv(Step(cfg, m, Reboot(now)))
  {
    var crashed := CrashStep(m);
    CrashKeepsRation(m);
    if now.boot.Some? {
      StrangersAreNotSelected(m.disk.plainRestarts, m.h.boots, now.boot.value, now.t - PLAIN_RESTART_WINDOW_SECONDS);
      StrangersAreNotSelected(RestartStamps(crashed.h.log), m.h.boots, now.boot.value,
          now.t - PLAIN_RESTART_WINDOW_SECONDS);
    }
  }

  lemma ElapseKeepsRation(m: Machine, later: Reading)
    requires RationInv(m) && m.now.AtMost(later)
    ensures RationInv(m.(now := later))
  {
    RationedLater(m.disk.plainRestarts, m.h.log, m.now, later, m.h.boots);
    if m.pc != Idle {
      RationedLater(m.mem.plainRestarts, m.h.log + m.h.unsaved, m.now, later, m.h.boots);
    }
  }

  lemma StepKeepsRation(cfg: Settings, m: Machine, e: Event)
    requires RationInv(m) && Enabled(m, e)
    ensures RationInv(Step(cfg, m, e))
  {
    match e
    case Elapse(later) => ElapseKeepsRation(m, later);
    case Look(unit, record) => LookKeepsRation(cfg, m, unit, record);
    case Choose => ChooseKeepsRation(cfg, m);
    case Save => SavingKeepsRation(cfg, m, e);
    case Charge => SavingKeepsRation(cfg, m, e);
    case Poll(shown, record) => PollKeepsRation(m, shown, record);
    case Crash => CrashKeepsRation(m);
    case Reboot(now) => RebootKeepsRation(cfg, m, now);
    case Command(ok) => CommandKeepsRation(m, ok);
    case TimeOut => TimeOutKeepsRation(cfg, m);
    case _ =>
  }

  lemma {:induction false} RunKeepsRation(cfg: Settings, start: Machine, events: seq<Event>)
    requires RationInv(start) && Run(cfg, start, events).Some?
    ensures RationInv(Run(cfg, start, events).value)
  {
    if events != [] {
      var n := |events| - 1;
      RunKeepsRation(cfg, start, events[..n]);
      StepKeepsRation(cfg, Run(cfg, start, events[..n]).value, events[n]);
    }
  }

  /** Between operator resets no interval of 1800 s of one boot holds two saved plain restarts. */
  lemma PlainRestartsAreRationed(cfg: Settings, events: seq<Event>, m: Machine)
    requires Reaches(cfg, events, m)
    ensures Budgeted(RestartStamps(m.h.log), 1800.0, 1)
  {
    var now: Reading, exits: seq<Exit> :|
      Run(cfg, Installed(now, exits), events) == Some(m) && ValidReading(now) && ValidExits(exits);
    RunKeepsRation(cfg, Installed(now, exits), events);
  }
}
