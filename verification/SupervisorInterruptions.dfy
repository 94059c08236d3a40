/**
 * Which interruptions the supervisor's promises about its surroundings survive.
 *
 * The counters and the watch are saved with a pass, so a crash or a reboot before the save
 * loses what the pass saw and did. Here the promises are about everything that happened in a
 * run, saved or not, and each is shown to hold exactly for the interruptions that spare what
 * it depends on.
 */
module SupervisorInterruptions {
  import opened Basics
  import opened SupervisorState
  import opened SupervisorMachine
  import opened SupervisorRuns

  // ---- What happened -----------------------------------------------------------

  /** What one step adds to what happened; an operator reset starts over. */
  ghost function Noted(cfg: Settings, notes: seq<Note>, m: Machine, e: Event): seq<Note>
    requires Enabled(m, e)
  {
    match e
    case Look(unit, record) => notes + [SightingOf(m.disk, unit, record, m.exits, m.now, cfg)]
    case Choose =>
      if Decide(m.mem, m.pc.unit, m.pc.record, m.now, cfg).action == Restart then notes + [Restarted(m.now.Mark())]
          else notes
    case Poll(shown, record) => if m.pc == Verifying && SeesRecovered(m, shown, record) then notes + [Recovered]
        else notes
    case OperatorReset => []
    case _ => notes
  }

  /** Everything the passes of a run saw and did since the last operator reset, saved or not. */
  ghost function Happened(cfg: Settings, start: Machine, events: seq<Event>): (notes: seq<Note>)
    requires Run(cfg, start, events).Some?
  {
    if events == [] then []
    else
      var n := |events| - 1;
      Noted(cfg, Happened(cfg, start, events[..n]), Run(cfg, start, events[..n]).value, events[n])
  }

  ghost function Looks(notes: seq<Note>): (looks: seq<Note>)
    ensures forall i :: 0 <= i < |looks| ==> looks[i].Sighting?
  {
    if notes == [] then []
    else Looks(notes[..|notes| - 1]) + if notes[|notes| - 1].Sighting? then [notes[|notes| - 1]] else []
  }

  /** How late a crash or a reboot may come: never while a note of this kind is unsaved. */
  datatype Care = AnyTime | SparesRestarts | SparesLooks | SparesNotes

  predicate Loses(care: Care, unsaved: seq<Note>) {
    match care
    case AnyTime => false
    case SparesRestarts => unsaved != [] && unsaved[|unsaved| - 1].Restarted?
    case SparesLooks => unsaved != [] && unsaved[0].Sighting?
    case SparesNotes => unsaved != []
  }

  predicate Interrupts(e: Event) {
    e.Crash? || e.Reboot?
  }

  /** Since the last operator reset, no interruption lost a note of this kind. */
  ghost predicate Careful(cfg: Settings, care: Care, start: Machine, events: seq<Event>)
    requires Run(cfg, start, events).Some?
  {
    events == [] || events[|events| - 1] == OperatorReset
    || (Careful(cfg, care, start, events[..|events| - 1])
        && (Interrupts(events[|events| - 1]) ==> !Loses(care, Run(cfg, start, events[..|events| - 1]).value.h.unsaved)))
  }

  ghost function AllNotes(m: Machine): seq<Note> {
    m.h.log + m.h.unsaved
  }

  // ---- The unsaved notes of a pass -----------------------------------------------

  /** A pass has unsaved at most its look, its look and a restart, or a verified recovery. */
  ghost predicate UnsavedInv(m: Machine) {
    var u := m.h.unsaved;
    || (u == [] && !m.pc.Choosing?)
    || (|u| == 1 && u[0].Sighting? && (m.pc.Choosing? || m.pc.Saving?))
    || (|u| == 2 && u[0].Sighting? && u[1].Restarted?
        && (m.pc == ResettingPlain || m.pc == StartingPlain || m.pc.Saving?))
    || (u == [Recovered] && m.pc.Saving?)
  }

  lemma CommandKeepsUnsaved(m: Machine, ok: bool)
    requires UnsavedInv(m) && CommandAt(m.pc).Some?
    ensures UnsavedInv(CommandStep(m, ok))
  {
  }

  lemma PollKeepsUnsaved(m: Machine, shown: Option<Properties>, record: Option<Record>)
    requires UnsavedInv(m)
    ensures UnsavedInv(PollStep(m, shown, record))
  {
  }

  lemma OtherStepsKeepUnsaved(cfg: Settings, m: Machine, e: Event)
    requires UnsavedInv(m) && Enabled(m, e) && !e.Command? && !e.Poll? && (e.Save? ==> !m.pc.after.Choosing?)
    ensures UnsavedInv(Step(cfg, m, e))
  {
  }

  lemma StepKeepsUnsaved(cfg: Settings, m: Machine, e: Event)
    requires UnsavedInv(m) && PassInv(m) && Enabled(m, e)
    ensures UnsavedInv(Step(cfg, m, e))
  {
    match e
    case Command(ok) => CommandKeepsUnsaved(m, ok);
    case Poll(shown, record) => PollKeepsUnsaved(m, shown, record);
    case _ => OtherStepsKeepUnsaved(cfg, m, e);
  }

  // ---- The notes of a run grow as what happened does, except at interruptions -------

  lemma CommandAddsNothing(m: Machine, ok: bool)
    requires CommandAt(m.pc).Some?
    ensures AllNotes(CommandStep(m, ok)) == AllNotes(m)
  {
  }

  lemma TimeOutAddsNothing(cfg: Settings, m: Machine)
    ensures AllNotes(TimeOutStep(cfg, m)) == AllNotes(m)
  {
  }

  lemma ChooseAddsRestart(cfg: Settings, m: Machine)
    requires m.pc.Choosing?
    ensures AllNotes(ChooseStep(cfg, m)) == Noted(cfg, AllNotes(m), m, Choose)
  {
  }

  lemma PollAddsRecovery(cfg: Settings, m: Machine, shown: Option<Properties>, record: Option<Record>)
    requires Enabled(m, Poll(shown, record))
    ensures AllNotes(PollStep(m, shown, record)) == Noted(cfg, AllNotes(m), m, Poll(shown, record))
  {
  }

  lemma OthersAddNothing(cfg: Settings, m: Machine, e: Event)
    requires Enabled(m, e) && (e.Elapse? || e.RecordExit? || e.Save? || e.Charge? || e.DropExits?)
    ensures AllNotes(Step(cfg, m, e)) == AllNotes(m)
  {
  }

  lemma NotesGrow(cfg: Settings, m: Machine, e: Event)
    requires LogInv(m) && Enabled(m, e) && !Interrupts(e)
    ensures AllNotes(Step(cfg, m, e)) == Noted(cfg, AllNotes(m), m, e)
  {
    match e
    case Look(_, _) => assert m.h.log + [] == m.h.log;
    case OperatorReset => assert m.h.unsaved == [];
    case Choose => ChooseAddsRestart(cfg, m);
    case Command(ok) => CommandAddsNothing(m, ok);
    case Poll(shown, record) => PollAddsRecovery(cfg, m, shown, record);
    case TimeOut => TimeOutAddsNothing(cfg, m);
    case _ => OthersAddNothing(cfg, m, e);
  }

  // ---- How far the notes agree with what happened ------------------------------------

  ghost predicate Agree(care: Care, happened: seq<Note>, notes: seq<Note>) {
    && (care != AnyTime ==> RestartsBegun(happened) <= PlainStreak(notes))
    && (care == SparesLooks || care == SparesNotes ==> Looks(happened) == Looks(notes))
    && (care == SparesNotes ==> happened == notes)
  }

  lemma OneMoreNote(notes: seq<Note>, n: Note)
    ensures RestartsBegun(notes + [n]) ==
              if n.Sighting? && n.ready.Some? then 0 else RestartsBegun(notes) + if n.Restarted? || n == CutShort
                  then 1 else 0
    ensures Looks(notes + [n]) == Looks(notes) + if n.Sighting? then [n] else []
  {
    assert (notes + [n])[..|notes|] == notes;
  }

  lemma AgreeOnOneMore(care: Care, happened: seq<Note>, notes: seq<Note>, n: Note)
    requires Agree(care, happened, notes) && n != CutShort
    ensures Agree(care, happened + [n], notes + [n])
  {
    OneMoreNote(happened, n);
    OneMoreNote(notes, n);
    NoteGrows(notes, n);
  }

  lemma StepKeepsAgreement(cfg: Settings, care: Care, happened: seq<Note>, m: Machine, e: Event)
    requires Agree(care, happened, AllNotes(m)) && LogInv(m) && Enabled(m, e) && !Interrupts(e)
    ensures Agree(care, Noted(cfg, happened, m, e), AllNotes(Step(cfg, m, e)))
  {
    var notes := AllNotes(m);
    NotesGrow(cfg, m, e);
    match e
    case Look(unit, record) =>
      AgreeOnOneMore(care, happened, notes, SightingOf(m.disk, unit, record, m.exits, m.now, cfg));
    case Choose => AgreeOnOneMore(care, happened, notes, Restarted(m.now.Mark()));
    case Poll(_, _) => AgreeOnOneMore(care, happened, notes, Recovered);
    case _ =>
  }

  /** An interruption that spares what matters leaves the agreement. */
  lemma InterruptionKeepsAgreement(care: Care, happened: seq<Note>, m: Machine)
    requires Agree(care, happened, AllNotes(m)) && UnsavedInv(m) && !Loses(care, m.h.unsaved)
    ensures Agree(care, happened, AllNotes(CrashStep(m)))
  {
    var log, u := m.h.log, m.h.unsaved;
    assert log + [] == log;
    assert AllNotes(CrashStep(m)) == log || AllNotes(CrashStep(m)) == log + [CutShort];
    if |u| == 1 {
      assert log + u == log + [u[0]];
      OneMoreNote(log, u[0]);
      NoteGrows(log, u[0]);
    }
  }

  lemma AnyStepKeepsAgreement(cfg: Settings, care: Care, happened: seq<Note>, m: Machine, e: Event)
    requires Agree(care, happened, AllNotes(m)) && LogInv(m) && UnsavedInv(m) && Enabled(m, e)
    requires Interrupts(e) ==> !Loses(care, m.h.unsaved)
    ensures Agree(care, Noted(cfg, happened, m, e), AllNotes(Step(cfg, m, e)))
  {
    if Interrupts(e) {
      InterruptionKeepsAgreement(care, happened, m);
      InterruptionsCrash(cfg, happened, m, e);
    } else {
      StepKeepsAgreement(cfg, care, happened, m, e);
    }
  }

  lemma {:induction false} RunKeepsUnsaved(cfg: Settings, start: Machine, events: seq<Event>)
    requires Inv(cfg, start) && UnsavedInv(start) && Run(cfg, start, events).Some?
    ensures UnsavedInv(Run(cfg, start, events).value)
  {
    if events != [] {
      var n := |events| - 1;
      RunKeepsUnsaved(cfg, start, events[..n]);
      RunKeepsInv(cfg, start, events[..n]);
      StepKeepsUnsaved(cfg, Run(cfg, start, events[..n]).value, events[n]);
    }
  }

  lemma {:induction false} RunKeepsAgreement(cfg: Settings, care: Care, start: Machine, events: seq<Event>)
    requires Inv(cfg, start) && start.h.log == [] && start.h.unsaved == [] && start.pc == Idle
    requires Run(cfg, start, events).Some? && Careful(cfg, care, start, events)
    ensures Agree(care, Happened(cfg, start, events), AllNotes(Run(cfg, start, events).value))
  {
    if events != [] {
      var n := |events| - 1;
      var m, e := Run(cfg, start, events[..n]).value, events[n];
      RunKeepsInv(cfg, start, events[..n]);
      if e == OperatorReset {
        assert AllNotes(Step(cfg, m, e)) == [];
      } else {
        RunKeepsUnsaved(cfg, start, events[..n]);
        RunKeepsAgreement(cfg, care, start, events[..n]);
        AnyStepKeepsAgreement(cfg, care, Happened(cfg, start, events[..n]), m, e);
      }
    }
  }

  // ---- Runs from an installation ---------------------------------------------------------

  /** A run from the installation at this moment. */
  ghost predicate Runs(cfg: Settings, now: Reading, exits: seq<Exit>, events: seq<Event>) {
    ValidReading(now) && ValidExits(exits) && Run(cfg, Installed(now, exits), events).Some?
  }

  ghost function After(cfg: Settings, now: Reading, exits: seq<Exit>, events: seq<Event>): Machine
    requires Runs(cfg, now, exits, events)
  {
    Run(cfg, Installed(now, exits), events).value
  }

  lemma InstalledRunsAgree(cfg: Settings, care: Care, now: Reading, exits: seq<Exit>, events: seq<Event>)
    requires Runs(cfg, now, exits, events) && Careful(cfg, care, Installed(now, exits), events)
    ensures Agree(care, Happened(cfg, Installed(now, exits), events), AllNotes(After(cfg, now, exits, events)))
    ensures Inv(cfg, After(cfg, now, exits, events))
  {
    InstalledIsInv(cfg, now, exits);
    RunKeepsAgreement(cfg, care, Installed(now, exits), events);
    RunKeepsInv(cfg, Installed(now, exits), events);
  }

  // ---- The notes are complete exactly when nothing was lost -------------------------------

  ghost function Kept(notes: seq<Note>): (n: nat) {
    if notes == [] then 0 else Kept(notes[..|notes| - 1]) + if notes[|notes| - 1] == CutShort then 0 else 1
  }

  lemma KeptGrows(notes: seq<Note>, n: Note)
    ensures Kept(notes + [n]) == Kept(notes) + if n == CutShort then 0 else 1
  {
    assert (notes + [n])[..|notes|] == notes;
  }

  /** A step adds as many notes, none of them `CutShort`, to whatever was noted before. */
  lemma NotedCounts(cfg: Settings, notes: seq<Note>, m: Machine, e: Event)
    requires Enabled(m, e) && e != OperatorReset
    ensures Kept(Noted(cfg, notes, m, e)) == Kept(notes) + |Noted(cfg, notes, m, e)| - |notes|
    ensures |Noted(cfg, notes, m, e)| - |notes| == |Noted(cfg, [], m, e)|
  {
    match e
    case Look(unit, record) => KeptGrows(notes, SightingOf(m.disk, unit, record, m.exits, m.now, cfg));
    case Choose => KeptGrows(notes, Restarted(m.now.Mark()));
    case Poll(_, _) => KeptGrows(notes, Recovered);
    case _ =>
  }

  /** The count of one side, in terms of the other; a lossy interruption leaves it short. */
  ghost predicate CountsTo(notes: seq<Note>, happened: seq<Note>, short: bool) {
    Kept(notes) <= |happened| == Kept(happened) && (short ==> Kept(notes) < |happened|)
  }

  lemma InterruptionKeepsCount(happened: seq<Note>, m: Machine, short: bool)
    requires UnsavedInv(m) && CountsTo(AllNotes(m), happened, short)
    ensures CountsTo(AllNotes(CrashStep(m)), happened, short || m.h.unsaved != [])
  {
    InterruptionForgets(m);
  }

  lemma PassKeepsCount(cfg: Settings, happened: seq<Note>, m: Machine, e: Event, short: bool)
    requires LogInv(m) && Enabled(m, e) && e != OperatorReset && !Interrupts(e)
             && CountsTo(AllNotes(m), happened, short)
    ensures CountsTo(AllNotes(Step(cfg, m, e)), Noted(cfg, happened, m, e), short)
  {
    NotedCounts(cfg, happened, m, e);
    NotedCounts(cfg, AllNotes(m), m, e);
    NotesGrow(cfg, m, e);
  }

  lemma InterruptionsCrash(cfg: Settings, happened: seq<Note>, m: Machine, e: Event)
    requires Enabled(m, e) && Interrupts(e)
    ensures AllNotes(Step(cfg, m, e)) == AllNotes(CrashStep(m)) && Noted(cfg, happened, m, e) == happened
  {
  }

  lemma StepKeepsCount(cfg: Settings, happened: seq<Note>, m: Machine, e: Event, short: bool)
    requires LogInv(m) && UnsavedInv(m) && Enabled(m, e) && e != OperatorReset && CountsTo(AllNotes(m), happened, short)
    ensures CountsTo(AllNotes(Step(cfg, m, e)), Noted(cfg, happened, m, e),
            short || (Interrupts(e) && m.h.unsaved != []))
  {
    if Interrupts(e) {
      InterruptionKeepsCount(happened, m, short);
      InterruptionsCrash(cfg, happened, m, e);
    } else {
      PassKeepsCount(cfg, happened, m, e, short);
    }
  }

  lemma InterruptionForgets(m: Machine)
    requires UnsavedInv(m)
    ensures Kept(AllNotes(CrashStep(m))) + |m.h.unsaved| == Kept(AllNotes(m))
  {
    var log, u := m.h.log, m.h.unsaved;
    KeptGrows(log, CutShort);
    assert log + [] == log;
    assert AllNotes(CrashStep(m)) == log || AllNotes(CrashStep(m)) == log + [CutShort];
    if |u| == 1 {
      assert log + u == log + [u[0]];
      KeptGrows(log, u[0]);
    } else if |u| == 2 {
      assert log + u == (log + [u[0]]) + [u[1]];
      KeptGrows(log, u[0]);
      KeptGrows(log + [u[0]], u[1]);
    }
  }

  lemma {:induction false} LosingLosesNotes(cfg: Settings, start: Machine, events: seq<Event>)
    requires Inv(cfg, start) && start.h.log == [] && start.h.unsaved == [] && start.pc == Idle
    requires Run(cfg, start, events).Some?
    ensures CountsTo(AllNotes(Run(cfg, start, events).value), Happened(cfg, start, events),
                     !Careful(cfg, SparesNotes, start, events))
  {
    if events != [] {
      var n := |events| - 1;
      var m, e := Run(cfg, start, events[..n]).value, events[n];
      RunKeepsInv(cfg, start, events[..n]);
      if e == OperatorReset {
        assert AllNotes(Step(cfg, m, e)) == [];
      } else {
        RunKeepsUnsaved(cfg, start, events[..n]);
        LosingLosesNotes(cfg, start, events[..n]);
        StepKeepsCount(cfg, Happened(cfg, start, events[..n]), m, e, !Careful(cfg, SparesNotes, start, events[..n]));
      }
    }
  }

  /**
   * The notes saved and about to be saved are everything that happened exactly when, since
   * the last operator reset, no crash or reboot came while a pass had something unsaved.
   */
  lemma NotesAreCompleteExactly(cfg: Settings, now: Reading, exits: seq<Exit>, events: seq<Event>)
    requires Runs(cfg, now, exits, events)
    ensures AllNotes(After(cfg, now, exits, events)) == Happened(cfg, Installed(now, exits), events)
            <==> Careful(cfg, SparesNotes, Installed(now, exits), events)
  {
    InstalledIsInv(cfg, now, exits);
    LosingLosesNotes(cfg, Installed(now, exits), events);
    if Careful(cfg, SparesNotes, Installed(now, exits), events) {
      InstalledRunsAgree(cfg, SparesNotes, now, exits, events);
    }
  }

  // ---- Clearing the latch --------------------------------------------------------------

  /** Every look since one at least `healthyResetSeconds` before the last one saw one instance ready. */
  ghost predicate LookedLongEnough(cfg: Settings, looks: seq<Note>) {
    exists k: nat, instance: string :: LookedSince(cfg, looks, k, instance)
  }

  ghost predicate LookedSince(cfg: Settings, looks: seq<Note>, k: nat, instance: string) {
    && k < |looks| && (forall i :: 0 <= i < |looks| ==> looks[i].Sighting?)
    && (forall i :: k <= i < |looks| ==> looks[i].ready == Some(instance))
    && Apart(looks[k].at, looks[|looks| - 1].at, cfg.healthyResetSeconds)
  }

  /** A streak among the notes is a streak among the looks. */
  lemma {:induction false} StreakOfLooks(log: seq<Note>, k: nat, instance: string, at: Stamp) returns (j: nat)
    requires StreakFrom(log, k, instance, at)
    ensures j < |Looks(log)| && Looks(log)[j].at == at
    ensures forall i :: j <= i < |Looks(log)| ==> Looks(log)[i].ready == Some(instance)
    decreases |log|
  {
    var n := |log| - 1;
    if k == n {
      j := |Looks(log)| - 1;
    } else {
      assert log[..n][..k] == log[..k];
      j := StreakOfLooks(log[..n], k, instance, at);
    }
  }

  /** The step clears the latch, and not by an operator reset. */
  predicate Clears(cfg: Settings, m: Machine, e: Event) {
    Enabled(m, e) && e != OperatorReset && m.disk.recoveryFailed && !Step(cfg, m, e).disk.recoveryFailed
  }

  /** In one run: if it spares what it should, its next step clears the latch only after watching. */
  ghost predicate LatchKept(cfg: Settings, care: Care, now: Reading, exits: seq<Exit>, events: seq<Event>, e: Event) {
    Runs(cfg, now, exits, events) && Careful(cfg, care, Installed(now, exits), events)
    && Clears(cfg, After(cfg, now, exits, events), e)
    ==> LookedLongEnough(cfg, Looks(Happened(cfg, Installed(now, exits), events)))
  }

  /**
   * If no interruption lost a look, the latch clears only after every look of the run since
   * one at least `healthyResetSeconds` earlier saw the same instance ready.
   */
  lemma LatchClearsAfterLooking(cfg: Settings, care: Care, now: Reading, exits: seq<Exit>, events: seq<Event>, e: Event)
    requires care == SparesLooks || care == SparesNotes
    ensures LatchKept(cfg, care, now, exits, events, e)
  {
    if Runs(cfg, now, exits, events) && Careful(cfg, care, Installed(now, exits), events)
       && Clears(cfg, After(cfg, now, exits, events), e)
    {
      var m := After(cfg, now, exits, events);
      InstalledRunsAgree(cfg, care, now, exits, events);
      assert Reaches(cfg, events, m);
      ClearingIsNoted(cfg, events, m, e);
    }
  }

  lemma ClearingIsNoted(cfg: Settings, events: seq<Event>, m: Machine, e: Event)
    requires Reaches(cfg, events, m) && Clears(cfg, m, e)
    ensures LookedLongEnough(cfg, Looks(AllNotes(m)))
  {
    LatchClearsByWatching(cfg, events, m, e);
    DiskChangesBySaving(cfg, m, e);
    LookedAsNoted(cfg, Step(cfg, m, e).h.log);
  }

  /** The watch among the notes is a watch among the looks. */
  lemma LookedAsNoted(cfg: Settings, log: seq<Note>)
    requires log != [] && log[|log| - 1].Sighting?
    requires exists k: nat, instance: string, first: Stamp ::
               StreakFrom(log, k, instance, first) && Apart(first, log[|log| - 1].at, cfg.healthyResetSeconds)
    ensures LookedLongEnough(cfg, Looks(log))
  {
    var k: nat, instance: string, first: Stamp :|
      StreakFrom(log, k, instance, first) && Apart(first, log[|log| - 1].at, cfg.healthyResetSeconds);
    var j := StreakOfLooks(log, k, instance, first);
    assert LookedSince(cfg, Looks(log), j, instance);
  }

  // ---- Counting ----------------------------------------------------------------------------

  /** In one run: between passes the startup streak counts every exit consumed. */
  ghost predicate StreakKept(cfg: Settings, care: Care, now: Reading, exits: seq<Exit>, events: seq<Event>) {
    Runs(cfg, now, exits, events) && Careful(cfg, care, Installed(now, exits), events)
        && After(cfg, now, exits, events).pc == Idle
    ==> After(cfg, now, exits, events).disk.startupFailureStreak
        == StartupStreak(Happened(cfg, Installed(now, exits), events))
  }

  /** If nothing was lost, the streak is the startup exits consumed since the last ready look or verified recovery. */
  lemma StreakCountsEveryExit(cfg: Settings, now: Reading, exits: seq<Exit>, events: seq<Event>)
    ensures StreakKept(cfg, SparesNotes, now, exits, events)
  {
    if Runs(cfg, now, exits, events) && Careful(cfg, SparesNotes, Installed(now, exits), events) {
      InstalledRunsAgree(cfg, SparesNotes, now, exits, events);
      var m := After(cfg, now, exits, events);
      assert m.pc == Idle ==> AllNotes(m) == m.h.log;
    }
  }

  /** In one run: at most three plain restarts are begun between ready looks. */
  ghost predicate RestartsKept(cfg: Settings, care: Care, now: Reading, exits: seq<Exit>, events: seq<Event>) {
    Runs(cfg, now, exits, events) && Careful(cfg, care, Installed(now, exits), events)
    ==> RestartsBegun(Happened(cfg, Installed(now, exits), events)) <= MAX_PLAIN_RESTART_STREAK
  }

  /** If no interruption lost a restart, at most three are begun between ready looks or operator resets. */
  lemma AtMostThreeRestarts(cfg: Settings, care: Care, now: Reading, exits: seq<Exit>, events: seq<Event>)
    requires care != AnyTime
    ensures RestartsKept(cfg, care, now, exits, events)
  {
    if Runs(cfg, now, exits, events) && Careful(cfg, care, Installed(now, exits), events) {
      InstalledRunsAgree(cfg, care, now, exits, events);
      var m := After(cfg, now, exits, events);
      assert m.h.log + [] == m.h.log;
    }
  }
}
