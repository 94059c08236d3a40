/**
 * What a consumer result leads to, exactly, in every run of an entry's recovery: the first proof
 * that stands, the answer to the request that a second proof makes, and the latch, each told from
 * the events of the run and from every charge ever made.
 */
module EntryAnswers {
  import opened Basics
  import opened EntryRecovery
  import Probes

  // ---- The answer to a request ------------------------------------------------

  /** A charge less than half an hour old. */
  ghost predicate RecentCharge(history: seq<real>, wall: real, i: nat) {
    i < |history| && wall - history[i] < 1800.0
  }

  ghost predicate TwoRecentCharges(history: seq<real>, wall: real) {
    exists i: nat, j: nat :: i < j && RecentCharge(history, wall, i) && RecentCharge(history, wall, j)
  }

  /** Some recent charge is younger than the cooldown. */
  ghost predicate CoolingDown(history: seq<real>, wall: real, cooldown: real) {
    exists i: nat :: RecentCharge(history, wall, i) && wall - history[i] < cooldown
  }

  /** The answer the whole history gives. */
  ghost predicate AnswersBy(history: seq<real>, wall: real, cooldown: real, inProgress: bool, failed: bool,
      answer: Answer)
  {
    && (answer == InProgress <==> inProgress)
    && (answer == RecoveryFailed <==> !inProgress && failed)
    && (answer == BudgetExhausted <==> !inProgress && !failed && TwoRecentCharges(history, wall))
    && (answer == Cooldown <==>
          !inProgress && !failed && !TwoRecentCharges(history, wall) && CoolingDown(history, wall, cooldown))
    && (answer == Started <==>
          !inProgress && !failed && !TwoRecentCharges(history, wall) && !CoolingDown(history, wall, cooldown))
  }

  lemma TwoRecentExactly(history: seq<real>, wall: real)
    ensures |Recent(history, wall)| >= 2 <==> TwoRecentCharges(history, wall)
  {
    if |Recent(history, wall)| >= 2 {
      var i, j := RecentIndices(history, wall);
      assert RecentCharge(history, wall, i) && RecentCharge(history, wall, j);
    }
    if TwoRecentCharges(history, wall) {
      var i: nat, j: nat :| i < j && RecentCharge(history, wall, i) && RecentCharge(history, wall, j);
      TwoRecent(history, wall, i, j);
    }
  }

  lemma CoolingDownExactly(history: seq<real>, wall: real, cooldown: real)
    ensures Recent(history, wall) != [] && wall - Max(Recent(history, wall)) < cooldown
            <==> CoolingDown(history, wall, cooldown)
  {
    var recent := Recent(history, wall);
    RecentContains(history, wall);
    if recent != [] && wall - Max(recent) < cooldown {
      assert Max(recent) in history && wall - Max(recent) < 1800.0;
      var i: nat :| i < |history| && history[i] == Max(recent);
      assert RecentCharge(history, wall, i);
    }
    if CoolingDown(history, wall, cooldown) {
      var i: nat :| RecentCharge(history, wall, i) && wall - history[i] < cooldown;
      assert history[i] in recent && Max(recent) >= history[i];
    }
  }

  /** Every answer, exactly: the pruned list answers each request as the whole history does. */
  lemma RequestAnswersExactly(m: Memory, history: seq<real>, wall: real, cooldown: real)
    requires Faithful(m.reloads, history, wall)
    ensures var (after, answer) := m.RequestRecovery(wall, cooldown);
            && AnswersBy(history, wall, cooldown, m.inProgress, m.failed, answer)
            && after == if answer == Started then m.(inProgress := true) else m
  {
    TwoRecentExactly(history, wall);
    CoolingDownExactly(history, wall, cooldown);
  }

  // ---- The proof that stands ----------------------------------------------------

  /**
   * When the standing first proof was taken, by the events of a run. A stale result with the bridge
   * healthy begins a streak, leaves it if it comes too early, and ends it as its second proof; one
   * that comes too late begins anew. A busy bridge says nothing, and any other result ends the
   * streak; so do a charge, a verified reload, a healthy mark, an acknowledgement and a restart.
   */
  ghost function Standing(s: RecoverySettings, start: World, events: seq<Event>): (first: Option<real>)
    requires Run(s, start, events).Some?
  {
    if events == [] then None
    else
      var earlier, e := events[..|events| - 1], events[|events| - 1];
      var before, now := Standing(s, start, earlier), Run(s, start, earlier).value.mono;
      if e.ConsumerResult? then
        if !s.enabled then None
        else if e.outcome == Probes.BRIDGE_BUSY then before
        else if e.outcome != Probes.CONSUMER_STALE || !e.bridgeHealthy then None
        else if before.None? || now - before.value > 3.0 * s.confirm + s.probeDeadline + s.consumerProbeInterval
        then Some(now)
        else if now - before.value < s.confirm then before
        else None
      else if e == TaskStarts || e == VerifyReturned(true) || e == MarkHealthyRuns || e == Acknowledge || e.Restart?
      then None
      else before
  }

  /** The streak in memory is the standing proof, once no healthy mark is outstanding. */
  ghost predicate Stands(w: World, first: Option<real>) {
    w.marksPending == 0 ==>
      (w.memory.staleStreak > 0 <==> first.Some?) && (first.Some? ==> w.memory.lastStaleAt == first)
  }

  lemma ResultKeepsStanding(s: RecoverySettings, start: World, events: seq<Event>, e: Event)
    requires Run(s, start, events).Some? && e.ConsumerResult? && Enabled(Run(s, start, events).value, e)
    requires Run(s, start, events).value.marksPending == 0
    requires Stands(Run(s, start, events).value, Standing(s, start, events))
    requires !s.enabled ==> Standing(s, start, events).None?
    ensures Run(s, start, events + [e]).Some?
    ensures Stands(Run(s, start, events + [e]).value, Standing(s, start, events + [e]))
  {
    RunGrows(s, start, events, e);
    assert (events + [e])[..|events|] == events;
  }

  lemma OtherEventKeepsStanding(s: RecoverySettings, start: World, events: seq<Event>, e: Event)
    requires Run(s, start, events).Some? && !e.ConsumerResult? && Enabled(Run(s, start, events).value, e)
    requires Run(s, start, events).value.marksPending <= 1
    requires Stands(Run(s, start, events).value, Standing(s, start, events))
    ensures Run(s, start, events + [e]).Some?
    ensures Stands(Run(s, start, events + [e]).value, Standing(s, start, events + [e]))
    ensures Run(s, start, events + [e]).value.marksPending <= 1
  {
    RunGrows(s, start, events, e);
    assert (events + [e])[..|events|] == events;
  }

  lemma {:induction false} DisabledNeverStands(s: RecoverySettings, start: World, events: seq<Event>)
    requires Run(s, start, events).Some? && !s.enabled
    ensures Standing(s, start, events).None?
  {
    if events != [] {
      DisabledNeverStands(s, start, events[..|events| - 1]);
    }
  }

  lemma {:induction false} RunKeepsStanding(s: RecoverySettings, wall: real, mono: real, events: seq<Event>)
    requires Run(s, NewWorld(wall, mono), events).Some? && MarksRunFirst(s, NewWorld(wall, mono), events)
    ensures var w := Run(s, NewWorld(wall, mono), events).value;
            Stands(w, Standing(s, NewWorld(wall, mono), events)) && w.marksPending <= 1
  {
    var start := NewWorld(wall, mono);
    if events != [] {
      var earlier, e := events[..|events| - 1], events[|events| - 1];
      RunKeepsStanding(s, wall, mono, earlier);
      assert events == earlier + [e];
      if e.ConsumerResult? {
        if !s.enabled {
          DisabledNeverStands(s, start, earlier);
        }
        ResultKeepsStanding(s, start, earlier, e);
        ResultMarksOnce(s, Run(s, start, earlier).value, e);
      } else {
        OtherEventKeepsStanding(s, start, earlier, e);
      }
    }
  }

  lemma ResultMarksOnce(s: RecoverySettings, w: World, e: Event)
    requires e.ConsumerResult? && w.marksPending == 0
    ensures Step(s, w, e).marksPending <= 1
  {
  }

  // ---- Every consumer result ------------------------------------------------------

  /** The result confirms the standing proof: neither too early nor too late. */
  ghost predicate Confirms(s: RecoverySettings, first: Option<real>, outcome: Probes.ProbeOutcome, healthy: bool,
      now: real)
  {
    && s.enabled && outcome == Probes.CONSUMER_STALE && healthy
    && first.Some?
    && s.confirm <= now - first.value <= 3.0 * s.confirm + s.probeDeadline + s.consumerProbeInterval
  }

  /** What a reachable world says of its charges and its task. */
  lemma ReachableIsFaithful(s: RecoverySettings, wall: real, mono: real, events: seq<Event>)
    requires s.cooldown > 0.0 && Run(s, NewWorld(wall, mono), events).Some?
    ensures var w := Run(s, NewWorld(wall, mono), events).value;
            Faithful(w.memory.reloads, w.charges, w.wall) && (w.memory.inProgress <==> w.task != NoTask)
  {
    var w := Run(s, NewWorld(wall, mono), events).value;
    RunKeepsInv(s, NewWorld(wall, mono), events);
    ChainEnds(s, w.disk, w.writes, Snapshot(w), w.wall);
  }

  /** What a result leads to, given the proof that stands. */
  ghost predicate LeadsTo(s: RecoverySettings, w: World, first: Option<real>, outcome: Probes.ProbeOutcome,
      healthy: bool, answer: Option<Answer>, q: World)
  {
    && (answer.Some? <==> Confirms(s, first, outcome, healthy, w.mono))
    && (answer.Some? ==>
          AnswersBy(w.charges, w.wall, s.cooldown, w.task != NoTask, w.memory.failed, answer.value))
    && q.task == (if answer == Some(Started) then Queued else w.task)
    && q.latchPending == w.latchPending + (if answer == Some(BudgetExhausted) then 1 else 0)
    && q.marksPending == w.marksPending + (if outcome == Probes.OK && (first.Some? || w.memory.failed) then 1 else 0)
    && q.memory.failed == w.memory.failed
  }

  lemma ResultLeadsOn(s: RecoverySettings, w: World, first: Option<real>, outcome: Probes.ProbeOutcome, healthy: bool)
    requires w.marksPending == 0 && Stands(w, first)
    requires Faithful(w.memory.reloads, w.charges, w.wall) && (w.memory.inProgress <==> w.task != NoTask)
    ensures LeadsTo(s, w, first, outcome, healthy,
                    w.memory.OnConsumerResult(s, outcome, healthy, w.mono, w.wall).1,
                    Step(s, w, ConsumerResult(outcome, healthy)))
  {
    var counted := w.memory.RecordStale(w.mono, s.confirm, s.MaxGap()).0;
    RequestAnswersExactly(counted, w.charges, w.wall, s.cooldown);
  }

  /**
   * Every consumer result, exactly. In every run a result asks for recovery exactly if it confirms
   * the standing proof; the answer is the one that all charges ever made give; a recovery is queued
   * exactly on `Started`, and the latch is asked for exactly on `BudgetExhausted`; and a healthy
   * mark is asked for exactly on an OK result that finds a standing proof or the latch.
   */
  lemma EveryResultExactly(s: RecoverySettings, wall: real, mono: real, events: seq<Event>,
      outcome: Probes.ProbeOutcome, healthy: bool)
    requires s.cooldown > 0.0
    requires Run(s, NewWorld(wall, mono), events).Some? && MarksRunFirst(s, NewWorld(wall, mono), events)
    requires Run(s, NewWorld(wall, mono), events).value.marksPending == 0
    ensures var w := Run(s, NewWorld(wall, mono), events).value;
            LeadsTo(s, w, Standing(s, NewWorld(wall, mono), events), outcome, healthy,
                    w.memory.OnConsumerResult(s, outcome, healthy, w.mono, w.wall).1,
                    Step(s, w, ConsumerResult(outcome, healthy)))
  {
    var start := NewWorld(wall, mono);
    RunKeepsStanding(s, wall, mono, events);
    ReachableIsFaithful(s, wall, mono, events);
    ResultLeadsOn(s, Run(s, start, events).value, Standing(s, start, events), outcome, healthy);
  }

  // ---- The latch --------------------------------------------------------------------

  /** The event leaves the latch set. */
  ghost predicate Latches(w: World, e: Event)
    requires Enabled(w, e)
  {
    || e == ReloadReturned(false) || e == TaskRaised || e == LatchTaskRuns
    || (e == WriteFailed && w.writes[0].awaited)
    || (e == VerifyReturned(false) && TwoRecentCharges(w.charges, w.wall))
    || (w.memory.failed && e != Acknowledge && e != MarkHealthyRuns && !e.Restart?)
    || (e.Restart? && w.disk.failed)
  }

  lemma StepLatches(s: RecoverySettings, w: World, e: Event)
    requires Enabled(w, e) && Faithful(w.memory.reloads, w.charges, w.wall)
    ensures Step(s, w, e).memory.failed <==> Latches(w, e)
  {
    TwoRecentExactly(w.charges, w.wall);
  }

  /**
   * The latch, exactly. In every run an event leaves it set if and only if the reload failed, the
   * task raised, the budget latch runs, the save the recovery waits for failed, or a reload was not
   * verified with two charges in the last half hour; or it was set and the event is no
   * acknowledgement, healthy mark or restart; or the store says so after a restart.
   */
  lemma LatchIsSetExactly(s: RecoverySettings, wall: real, mono: real, events: seq<Event>, e: Event)
    requires s.cooldown > 0.0 && Run(s, NewWorld(wall, mono), events).Some?
    requires Enabled(Run(s, NewWorld(wall, mono), events).value, e)
    ensures var w := Run(s, NewWorld(wall, mono), events).value;
            Step(s, w, e).memory.failed <==> Latches(w, e)
  {
    ReachableIsFaithful(s, wall, mono, events);
    StepLatches(s, Run(s, NewWorld(wall, mono), events).value, e);
  }
}
