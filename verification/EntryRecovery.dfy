/**
 * recovery.py: the reload budget, the stale streak and the latch of one config entry.
 *
 * `Memory` is the manager's state with the decisions it takes on it. `World` adds what
 * outlives it: the store, the writes on their way to it, the recovery task between two
 * awaits, and the ghost history the promises are about. A run is any sequence of events,
 * with Home Assistant restarts between any two of them.
 */
module EntryRecovery {
  import opened Basics
  import Probes

  const RECOVERY_WINDOW_SECONDS := 1800.0
  const MAX_RELOADS_PER_WINDOW := 2

  datatype RecoverySettings = RecoverySettings(
    enabled: bool, cooldown: real, confirm: real, probeDeadline: real, consumerProbeInterval: real)
  {
    /** How old a first proof may be for a second one to confirm it. */
    function MaxGap(): real {
      3.0 * confirm + probeDeadline + consumerProbeInterval
    }

    /** What from_options lets through. */
    predicate Valid() {
      && 600.0 <= cooldown <= 86400.0 && 90.0 <= confirm <= 3600.0
      && 5.0 <= probeDeadline <= 120.0 && 300.0 <= consumerProbeInterval <= 86400.0
    }

    /** The shortest time between two charges. */
    function Spacing(): real {
      if cooldown < RECOVERY_WINDOW_SECONDS then cooldown else RECOVERY_WINDOW_SECONDS
    }
  }

  datatype Answer = InProgress | RecoveryFailed | BudgetExhausted | Cooldown | Started

  /** recent_reloads: a stamp in the future still counts. */
  function Recent(reloads: seq<real>, wall: real): (recent: seq<real>) {
    if reloads == [] then []
    else
      var rest := Recent(reloads[..|reloads| - 1], wall);
      var last := reloads[|reloads| - 1];
      if wall - last < RECOVERY_WINDOW_SECONDS then rest + [last] else rest
  }

  function Max(values: seq<real>): (max: real)
    requires values != []
    ensures max in values && forall i :: 0 <= i < |values| ==> values[i] <= max
  {
    var last := values[|values| - 1];
    if |values| == 1 then last
    else
      var rest := Max(values[..|values| - 1]);
      if rest > last then rest else last
  }

  datatype Memory = Memory(inProgress: bool, reloads: seq<real>, failed: bool, staleStreak: nat,
      lastStaleAt: Option<real>) {

    function ClearStreak(): Memory {
      this.(staleStreak := 0, lastStaleAt := None)
    }

    /** The second proof confirms the first if it is neither too early nor too late. */
    predicate Confirms(mono: real, confirm: real, maxGap: real) {
      lastStaleAt.Some? && staleStreak > 0 && confirm <= mono - lastStaleAt.value <= maxGap
    }

    predicate StartsOver(mono: real, maxGap: real) {
      lastStaleAt.None? || staleStreak == 0 || mono - lastStaleAt.value > maxGap
    }

    function RecordStale(mono: real, confirm: real, maxGap: real): (Memory, bool) {
      if StartsOver(mono, maxGap) then (this.(staleStreak := 1, lastStaleAt := Some(mono)), false)
      else if mono - lastStaleAt.value < confirm then (this, false)
      else (ClearStreak(), true)
    }

    function RequestRecovery(wall: real, cooldown: real): (Memory, Answer) {
      var recent := Recent(reloads, wall);
      if inProgress then (this, InProgress)
      else if failed then (this, RecoveryFailed)
      else if |recent| >= MAX_RELOADS_PER_WINDOW then (this, BudgetExhausted)
      else if recent != [] && wall - Max(recent) < cooldown then (this, Cooldown)
      else (this.(inProgress := true), Started)
    }

    /** The first segment of the recovery task: the charge, and the end of the streak. */
    function Charge(wall: real): Memory {
      this.(reloads := Recent(reloads, wall) + [wall]).ClearStreak()
    }

    /** _on_consumer_stale: the answer to a recovery request, if the proofs led to one. */
    function OnStale(s: RecoverySettings, bridgeHealthy: bool, mono: real, wall: real): (Memory, Option<Answer>) {
      if !s.enabled then (this, None)
      else if !bridgeHealthy then (ClearStreak(), None)
      else
        var (counted, confirmed) := RecordStale(mono, s.confirm, s.MaxGap());
        if !confirmed then (counted, None)
        else
          var (asked, answer) := counted.RequestRecovery(wall, s.cooldown);
          (asked, Some(answer))
    }

    /** _on_probe_result for a consumer result: also whether a mark-healthy task is created. */
    function OnConsumerResult(s: RecoverySettings, outcome: Probes.ProbeOutcome, bridgeHealthy: bool, mono: real,
        wall: real)
      : (Memory, Option<Answer>, bool)
    {
      if outcome == Probes.OK then (this, None, staleStreak > 0 || failed)
      else if outcome == Probes.CONSUMER_STALE then
        var (next, answer) := OnStale(s, bridgeHealthy, mono, wall);
        (next, answer, false)
      else if outcome != Probes.BRIDGE_BUSY then (ClearStreak(), None, false)
      else (this, None, false)
    }
  }

  const NEW_MEMORY := Memory(false, [], false, 0, None)

  // ---- The world ----------------------------------------------------------

  /** Where the recovery task is suspended. */
  datatype Task = NoTask | Queued | SavingCharge | Reloading | Verifying | Settling

  /** What one save writes; `history` is every charge made up to that save. */
  datatype Stored = Stored(reloads: seq<real>, failed: bool, history: seq<real>)

  /** A write on its way to the store, and whether the recovery task is waiting for it. */
  datatype Write = Write(data: Stored, awaited: bool)

  /** A consumer result since the last charge. */
  datatype Proof = Proof(outcome: Probes.ProbeOutcome, bridgeHealthy: bool, at: real)

  datatype World = World(
    memory: Memory, task: Task, marksPending: nat, latchPending: nat,
    writes: seq<Write>, disk: Stored, wall: real, mono: real,
    charges: seq<real>, reloadsRun: seq<real>, proofs: seq<Proof>)

  datatype Event =
    | Elapse(wall: real, mono: real)
    | ConsumerResult(outcome: Probes.ProbeOutcome, bridgeHealthy: bool)
    | TaskStarts
    | WriteDone
    | WriteFailed
    | ReloadReturned(ok: bool)
    | VerifyReturned(ok: bool)
    | TaskRaised
    | TaskGivesUp
    | LatchTaskRuns
    | MarkHealthyRuns
    | Acknowledge
    | Restart(mono: real)

  ghost predicate Enabled(w: World, e: Event) {
    match e
    case Elapse(wall, mono) => w.wall <= wall && w.mono <= mono
    case ConsumerResult(_, _) => true
    case TaskStarts => w.task == Queued
    case WriteDone => w.writes != []
    case WriteFailed => w.writes != []
    case ReloadReturned(_) => w.task == Reloading
    case VerifyReturned(_) => w.task == Verifying
    case TaskRaised => w.task in {Reloading, Verifying}
    case TaskGivesUp => w.task == Settling
    case LatchTaskRuns => w.latchPending > 0
    case MarkHealthyRuns => w.marksPending > 0
    case Acknowledge => true
    case Restart(_) => true
  }

  ghost function Save(w: World, awaited: bool): World {
    w.(writes := w.writes + [Write(Stored(w.memory.reloads, w.memory.failed, w.charges), awaited)])
  }

  /** _async_latch up to its save. */
  ghost function Latch(w: World, awaited: bool): World {
    Save(w.(memory := w.memory.(failed := true)), awaited)
  }

  ghost function Finish(w: World): World {
    w.(task := NoTask, memory := w.memory.(inProgress := false))
  }

  /** The recovery task resumes when the write it waits for is done. */
  ghost function Resume(w: World): World {
    match w.task
    case SavingCharge => w.(task := Reloading, reloadsRun := w.reloadsRun + if w.charges == [] then []
        else [w.charges[|w.charges| - 1]])
    case Settling => Finish(w)
    case _ => w
  }

  ghost function Step(s: RecoverySettings, w: World, e: Event): World
    requires Enabled(w, e)
  {
    match e
    case Elapse(wall, mono) => w.(wall := wall, mono := mono)
    case ConsumerResult(outcome, healthy) =>
      var (memory, answer, mark) := w.memory.OnConsumerResult(s, outcome, healthy, w.mono, w.wall);
      w.(memory := memory, marksPending := w.marksPending + (if mark then 1 else 0),
         task := if answer == Some(Started) then Queued else w.task,
         latchPending := w.latchPending + if answer == Some(BudgetExhausted) then 1 else 0,
         proofs := w.proofs + [Proof(outcome, healthy, w.mono)])
    case TaskStarts =>
      Save(w.(memory := w.memory.Charge(w.wall), charges := w.charges + [w.wall], proofs := [], task := SavingCharge),
          true)
    case WriteDone =>
      var written := w.(disk := w.writes[0].data, writes := w.writes[1..]);
      if w.writes[0].awaited then Resume(written) else written
    case WriteFailed =>
      var dropped := w.(writes := w.writes[1..]);
      if w.writes[0].awaited then Latch(dropped.(task := Settling), true) else dropped
    case ReloadReturned(ok) => if ok then w.(task := Verifying) else Latch(w.(task := Settling), true)
    case VerifyReturned(ok) =>
      if ok then Save(w.(memory := w.memory.ClearStreak(), task := Settling), true)
      else if |Recent(w.memory.reloads, w.wall)| >= MAX_RELOADS_PER_WINDOW then Latch(w.(task := Settling), true)
      else Save(w.(task := Settling), true)
    case TaskRaised => Latch(w.(task := Settling), true)
    case TaskGivesUp => Finish(w.(writes := Unawaited(w.writes)))
    case LatchTaskRuns => Latch(w.(latchPending := w.latchPending - 1), false)
    case MarkHealthyRuns =>
      var cleared := w.(memory := w.memory.ClearStreak(), marksPending := w.marksPending - 1);
      if w.memory.failed then Save(cleared.(memory := cleared.memory.(failed := false)), false) else cleared
    case Acknowledge => Save(w.(memory := w.memory.ClearStreak().(failed := false)), false)
    case Restart(mono) =>
      World(NEW_MEMORY.(reloads := w.disk.reloads, failed := w.disk.failed), NoTask, 0, 0, [], w.disk, w.wall, mono,
            w.disk.history, w.reloadsRun, [])
  }

  /** A save the recovery no longer waits for still reaches the store. */
  ghost function Unawaited(writes: seq<Write>): seq<Write> {
    if writes == [] then [] else [writes[0].(awaited := false)] + Unawaited(writes[1..])
  }

  ghost function NewWorld(wall: real, mono: real): World {
    World(NEW_MEMORY, NoTask, 0, 0, [], Stored([], false, []), wall, mono, [], [], [])
  }

  ghost function Run(s: RecoverySettings, start: World, events: seq<Event>): Option<World> {
    if events == [] then Some(start)
    else
      var before, e := Run(s, start, events[..|events| - 1]), events[|events| - 1];
      if before.Some? && Enabled(before.value, e) then Some(Step(s, before.value, e)) else None
  }

  // ---- The budget ---------------------------------------------------------

  ghost predicate Within(x: real, start: real) {
    start <= x < start + RECOVERY_WINDOW_SECONDS
  }

  /** No interval of 1800 s holds three of them, and any two are `spacing` apart. */
  ghost predicate Budgeted(history: seq<real>, spacing: real) {
    && (forall start, i, j, k :: 0 <= i < j < k < |history| ==>
          !(Within(history[i], start) && Within(history[j], start) && Within(history[k], start)))
    && (forall i, j :: 0 <= i < j < |history| ==> history[j] - history[i] >= spacing)
  }

  /** Every charge lies in the past, and the pruned list answers as the whole history would. */
  ghost predicate Faithful(reloads: seq<real>, history: seq<real>, wall: real) {
    && (forall i :: 0 <= i < |history| ==> history[i] <= wall)
    && Recent(reloads, wall) == Recent(history, wall)
  }

  /** One more charge may be made now. */
  ghost predicate MayCharge(history: seq<real>, wall: real, spacing: real) {
    && (forall i :: 0 <= i < |history| ==> wall - history[i] >= spacing)
    && (forall i, j :: 0 <= i < j < |history| ==>
          wall - history[i] >= RECOVERY_WINDOW_SECONDS || wall - history[j] >= RECOVERY_WINDOW_SECONDS)
  }

  ghost predicate StoreInv(s: RecoverySettings, data: Stored, wall: real) {
    Faithful(data.reloads, data.history, wall) && Budgeted(data.history, s.Spacing())
  }

  /**
   * From the store through every write on its way to the memory: each holds a list that
   * answers for its own history, and the histories only grow.
   */
  ghost predicate Chain(s: RecoverySettings, first: Stored, writes: seq<Write>, last: Stored, wall: real)
    decreases writes
  {
    && StoreInv(s, first, wall)
    && if writes == [] then first.history <= last.history && StoreInv(s, last, wall)
       else first.history <= writes[0].data.history && Chain(s, writes[0].data, writes[1..], last, wall)
  }

  ghost function Snapshot(w: World): Stored {
    Stored(w.memory.reloads, w.memory.failed, w.charges)
  }

  ghost predicate BudgetInv(s: RecoverySettings, w: World) {
    && Chain(s, w.disk, w.writes, Snapshot(w), w.wall)
    && (w.task == Queued ==> MayCharge(w.charges, w.wall, s.Spacing()))
  }

  ghost function AwaitedCount(writes: seq<Write>): nat {
    if writes == [] then 0 else (if writes[0].awaited then 1 else 0) + AwaitedCount(writes[1..])
  }

  ghost predicate AwaitedCarry(writes: seq<Write>, history: seq<real>) {
    writes != [] ==> (writes[0].awaited ==> writes[0].data.history == history) && AwaitedCarry(writes[1..], history)
  }

  /** A task exists exactly while a recovery is in progress, and awaits at most one write. */
  ghost predicate TaskInv(w: World) {
    && (w.memory.inProgress <==> w.task != NoTask)
    && AwaitedCount(w.writes) <= (if w.task == SavingCharge || w.task == Settling then 1 else 0)
    && (w.task == SavingCharge ==> w.charges != [] && AwaitedCarry(w.writes, w.charges))
  }

  /** Every reload that ran was charged in the store before it ran, each by a charge of its own. */
  ghost predicate PaidInv(w: World) {
    && (forall x :: x in w.reloadsRun ==> x in w.disk.history)
    && (forall i, j :: 0 <= i < j < |w.reloadsRun| ==> w.reloadsRun[i] < w.reloadsRun[j])
    && (w.task == SavingCharge && w.charges != [] ==> forall x :: x in w.reloadsRun ==> x < w.charges[|w.charges| - 1])
  }

  ghost predicate Inv(s: RecoverySettings, w: World) {
    BudgetInv(s, w) && TaskInv(w) && PaidInv(w)
  }

  // ---- The pruned list answers as the full history does --------------------

  lemma {:induction false} RecentOfRecent(history: seq<real>, earlier: real, later: real)
    requires earlier <= later
    ensures Recent(Recent(history, earlier), later) == Recent(history, later)
  {
    if history != [] {
      var n := |history| - 1;
      RecentOfRecent(history[..n], earlier, later);
      var rest := Recent(history[..n], earlier);
      assert (rest + [history[n]])[..|rest|] == rest;
    }
  }

  lemma FaithfulLater(reloads: seq<real>, history: seq<real>, earlier: real, later: real)
    requires Faithful(reloads, history, earlier) && earlier <= later
    ensures Faithful(reloads, history, later)
  {
    RecentOfRecent(reloads, earlier, later);
    RecentOfRecent(history, earlier, later);
  }

  lemma ChargeIsFaithful(reloads: seq<real>, history: seq<real>, wall: real)
    requires Faithful(reloads, history, wall)
    ensures Faithful(Recent(reloads, wall) + [wall], history + [wall], wall)
  {
    var kept := Recent(reloads, wall);
    RecentOfRecent(reloads, wall, wall);
    assert (kept + [wall])[..|kept|] == kept && (history + [wall])[..|history|] == history;
  }

  lemma {:induction false} RecentContains(history: seq<real>, wall: real)
    ensures forall x :: x in Recent(history, wall) <==> x in history && wall - x < RECOVERY_WINDOW_SECONDS
  {
    if history != [] {
      var n := |history| - 1;
      RecentContains(history[..n], wall);
      assert history == history[..n] + [history[n]];
    }
  }

  lemma {:induction false} TwoRecent(history: seq<real>, wall: real, i: nat, j: nat)
    requires i < j < |history|
    requires wall - history[i] < RECOVERY_WINDOW_SECONDS && wall - history[j] < RECOVERY_WINDOW_SECONDS
    ensures |Recent(history, wall)| >= 2
  {
    var n := |history| - 1;
    if j < n {
      TwoRecent(history[..n], wall, i, j);
    } else {
      RecentContains(history[..n], wall);
      assert history[..n][i] in Recent(history[..n], wall);
    }
  }

  lemma {:induction false} RecentIndices(history: seq<real>, wall: real) returns (i: nat, j: nat)
    requires |Recent(history, wall)| >= 2
    ensures i < j < |history|
    ensures wall - history[i] < RECOVERY_WINDOW_SECONDS && wall - history[j] < RECOVERY_WINDOW_SECONDS
  {
    var n := |history| - 1;
    if wall - history[n] >= RECOVERY_WINDOW_SECONDS || |Recent(history[..n], wall)| >= 2 {
      i, j := RecentIndices(history[..n], wall);
    } else {
      RecentContains(history[..n], wall);
      var x := Recent(history[..n], wall)[0];
      assert x in history[..n];
      i :| 0 <= i < n && history[i] == x;
      j := n;
    }
  }

  /**
   * A request starts a reload exactly when the whole history allows one more charge: the
   * pruned list loses nothing the decision needs. (Only reloads inside the window are
   * consulted, so a cooldown longer than the window counts as the window.)
   */
  lemma RequestStartsExactly(s: RecoverySettings, m: Memory, history: seq<real>, wall: real)
    requires Faithful(m.reloads, history, wall)
    ensures m.RequestRecovery(wall, s.cooldown).1 == Started <==>
            !m.inProgress && !m.failed && MayCharge(history, wall, s.Spacing())
  {
    var recent := Recent(m.reloads, wall);
    RecentContains(history, wall);
    if |recent| >= 2 {
      var i, j := RecentIndices(history, wall);
    } else {
      forall i, j | 0 <= i < j < |history|
        ensures wall - history[i] >= RECOVERY_WINDOW_SECONDS || wall - history[j] >= RECOVERY_WINDOW_SECONDS
      {
        if wall - history[i] < RECOVERY_WINDOW_SECONDS && wall - history[j] < RECOVERY_WINDOW_SECONDS {
          TwoRecent(history, wall, i, j);
        }
      }
      if recent == [] {
        assert forall i :: 0 <= i < |history| ==> history[i] !in recent;
      } else if wall - Max(recent) >= s.cooldown {
        forall i | 0 <= i < |history| ensures wall - history[i] >= s.Spacing() {
          if wall - history[i] < RECOVERY_WINDOW_SECONDS {
            assert history[i] in recent;
          }
        }
      } else {
        var i :| 0 <= i < |history| && history[i] == Max(recent);
        assert wall - history[i] < s.Spacing();
      }
    }
  }

  lemma ChargeKeepsBudget(history: seq<real>, wall: real, spacing: real)
    requires Budgeted(history, spacing) && MayCharge(history, wall, spacing)
    requires forall i :: 0 <= i < |history| ==> history[i] <= wall
    ensures Budgeted(history + [wall], spacing)
  {
    var more := history + [wall];
    assert forall i :: 0 <= i < |history| ==> more[i] == history[i];
    forall start, i, j, k | 0 <= i < j < k < |more|
      ensures !(Within(more[i], start) && Within(more[j], start) && Within(more[k], start))
    {
      if k < |history| {
        assert !(Within(history[i], start) && Within(history[j], start) && Within(history[k], start));
      }
    }
  }

  // ---- Every event keeps the invariant -------------------------------------

  lemma {:induction false} ChainLater(s: RecoverySettings, first: Stored, writes: seq<Write>, last: Stored, wall: real,
      later: real)
    requires Chain(s, first, writes, last, wall) && wall <= later
    ensures Chain(s, first, writes, last, later)
    decreases writes
  {
    FaithfulLater(first.reloads, first.history, wall, later);
    if writes == [] {
      FaithfulLater(last.reloads, last.history, wall, later);
    } else {
      ChainLater(s, writes[0].data, writes[1..], last, wall, later);
    }
  }

  /** The memory may move on to a longer history, with or without a save in between. */
  lemma {:induction false} ChainExtends(s: RecoverySettings, first: Stored, writes: seq<Write>, last: Stored,
      next: Stored, wall: real)
    requires Chain(s, first, writes, last, wall) && last.history <= next.history && StoreInv(s, next, wall)
    ensures Chain(s, first, writes, next, wall)
    ensures forall awaited :: Chain(s, first, writes + [Write(next, awaited)], next, wall)
    decreases writes
  {
    forall awaited ensures Chain(s, first, writes + [Write(next, awaited)], next, wall) {
      var more := writes + [Write(next, awaited)];
      if writes == [] {
        assert more[0].data == next && more[1..] == [];
      } else {
        ChainExtends(s, writes[0].data, writes[1..], last, next, wall);
        assert more[1..] == writes[1..] + [Write(next, awaited)];
      }
    }
    if writes != [] {
      ChainExtends(s, writes[0].data, writes[1..], last, next, wall);
    }
  }

  lemma {:induction false} ChainEnds(s: RecoverySettings, first: Stored, writes: seq<Write>, last: Stored, wall: real)
    requires Chain(s, first, writes, last, wall)
    ensures first.history <= last.history && StoreInv(s, last, wall)
    decreases writes
  {
    if writes != [] {
      ChainEnds(s, writes[0].data, writes[1..], last, wall);
    }
  }

  lemma {:induction false} ChainUnawaited(s: RecoverySettings, first: Stored, writes: seq<Write>, last: Stored,
      wall: real)
    requires Chain(s, first, writes, last, wall)
    ensures Chain(s, first, Unawaited(writes), last, wall) && AwaitedCount(Unawaited(writes)) == 0
    decreases writes
  {
    if writes != [] {
      ChainUnawaited(s, writes[0].data, writes[1..], last, wall);
      assert Unawaited(writes)[1..] == Unawaited(writes[1..]);
    }
  }

  lemma {:induction false} AwaitedAppends(writes: seq<Write>, last: Write, history: seq<real>)
    ensures AwaitedCount(writes + [last]) == AwaitedCount(writes) + if last.awaited then 1 else 0
    ensures AwaitedCarry(writes, history) && (last.awaited ==> last.data.history == history)
            ==> AwaitedCarry(writes + [last], history)
    ensures AwaitedCount(writes) == 0 ==> AwaitedCarry(writes, history)
  {
    if writes != [] {
      AwaitedAppends(writes[1..], last, history);
      assert (writes + [last])[1..] == writes[1..] + [last];
    } else {
      assert [last][1..] == [];
    }
  }

  /** A save that leaves the list of charges alone. */
  lemma SaveKeepsInv(s: RecoverySettings, w: World, memory: Memory, awaited: bool)
    requires Inv(s, w)
    requires memory.reloads == w.memory.reloads && memory.inProgress == w.memory.inProgress
    requires awaited ==> w.task == Settling && AwaitedCount(w.writes) == 0
    ensures Inv(s, Save(w.(memory := memory), awaited))
  {
    var next := Stored(memory.reloads, memory.failed, w.charges);
    var q := Save(w.(memory := memory), awaited);
    assert BudgetInv(s, q) by {
      ChainEnds(s, w.disk, w.writes, Snapshot(w), w.wall);
      ChainExtends(s, w.disk, w.writes, Snapshot(w), next, w.wall);
    }
    assert TaskInv(q) by {
      AwaitedAppends(w.writes, Write(next, awaited), w.charges);
    }
  }

  lemma ConsumerResultKeepsInv(s: RecoverySettings, w: World, outcome: Probes.ProbeOutcome, healthy: bool)
    requires Inv(s, w) && Enabled(w, ConsumerResult(outcome, healthy))
    ensures Inv(s, Step(s, w, ConsumerResult(outcome, healthy)))
  {
    var (memory, answer, mark) := w.memory.OnConsumerResult(s, outcome, healthy, w.mono, w.wall);
    assert memory.reloads == w.memory.reloads && memory.failed == w.memory.failed;
    if answer == Some(Started) {
      var counted := w.memory.RecordStale(w.mono, s.confirm, s.MaxGap()).0;
      ChainEnds(s, w.disk, w.writes, Snapshot(w), w.wall);
      RequestStartsExactly(s, counted, w.charges, w.wall);
    }
  }

  lemma TaskStartsKeepsBudget(s: RecoverySettings, w: World)
    requires Inv(s, w) && w.task == Queued
    ensures BudgetInv(s, Step(s, w, TaskStarts))
  {
    var next := Stored(Recent(w.memory.reloads, w.wall) + [w.wall], w.memory.failed, w.charges + [w.wall]);
    ChainEnds(s, w.disk, w.writes, Snapshot(w), w.wall);
    ChargeIsFaithful(w.memory.reloads, w.charges, w.wall);
    ChargeKeepsBudget(w.charges, w.wall, s.Spacing());
    ChainExtends(s, w.disk, w.writes, Snapshot(w), next, w.wall);
  }

  lemma TaskStartsKeepsInv(s: RecoverySettings, w: World)
    requires s.cooldown > 0.0
    requires Inv(s, w) && w.task == Queued
    ensures Inv(s, Step(s, w, TaskStarts))
  {
    var q := Step(s, w, TaskStarts);
    TaskStartsKeepsBudget(s, w);
    assert TaskInv(q) by {
      AwaitedAppends(w.writes, q.writes[|w.writes|], q.charges);
    }
    ChainEnds(s, w.disk, w.writes, Snapshot(w), w.wall);
    forall x | x in w.reloadsRun ensures x < w.wall {
      var j :| 0 <= j < |w.disk.history| && w.disk.history[j] == x;
      assert w.charges[j] == x && w.wall - w.charges[j] >= s.Spacing();
    }
  }

  lemma PrefixKeepsMembers(a: seq<real>, b: seq<real>)
    requires a <= b
    ensures forall x :: x in a ==> x in b
  {
  }

  /** A reload starts paid for: its charge is on disk and newer than that of every reload before it. */
  lemma ReloadIsPaid(w: World, q: World)
    requires PaidInv(w) && w.task == SavingCharge && w.charges != []
    requires q.disk.history == w.charges && w.disk.history <= w.charges
    requires q.task == Reloading && q.reloadsRun == w.reloadsRun + [w.charges[|w.charges| - 1]]
    ensures PaidInv(q)
  {
    var c := w.charges[|w.charges| - 1];
    PrefixKeepsMembers(w.disk.history, w.charges);
    assert c in w.charges;
    forall i, j | 0 <= i < j < |q.reloadsRun| ensures q.reloadsRun[i] < q.reloadsRun[j] {
      assert q.reloadsRun[i] == w.reloadsRun[i] && w.reloadsRun[i] in w.reloadsRun;
    }
  }

  /** The store catches up by one write. */
  lemma DiskCatchesUp(s: RecoverySettings, w: World)
    requires Inv(s, w) && w.writes != []
    ensures var q := w.(disk := w.writes[0].data, writes := w.writes[1..]);
            && BudgetInv(s, q)
            && (forall x :: x in w.reloadsRun ==> x in q.disk.history)
            && w.disk.history <= w.charges
  {
    ChainEnds(s, w.disk, w.writes, Snapshot(w), w.wall);
    PrefixKeepsMembers(w.disk.history, w.writes[0].data.history);
  }

  lemma ChargeWrittenKeepsInv(s: RecoverySettings, w: World)
    requires Inv(s, w) && w.writes != [] && w.writes[0].awaited && w.task == SavingCharge
    ensures Inv(s, Step(s, w, WriteDone))
  {
    DiskCatchesUp(s, w);
    ReloadIsPaid(w, Step(s, w, WriteDone));
  }

  lemma WriteDoneKeepsInv(s: RecoverySettings, w: World)
    requires Inv(s, w) && w.writes != []
    ensures Inv(s, Step(s, w, WriteDone))
  {
    if w.writes[0].awaited && w.task == SavingCharge {
      ChargeWrittenKeepsInv(s, w);
    } else {
      DiskCatchesUp(s, w);
    }
  }

  lemma DroppedWriteKeepsChain(s: RecoverySettings, first: Stored, writes: seq<Write>, last: Stored, wall: real)
    requires Chain(s, first, writes, last, wall) && writes != []
    ensures Chain(s, first, writes[1..], last, wall)
  {
    assert Chain(s, writes[0].data, writes[1..], last, wall);
  }

  lemma WriteFailedKeepsInv(s: RecoverySettings, w: World)
    requires Inv(s, w) && w.writes != []
    ensures Inv(s, Step(s, w, WriteFailed))
  {
    var q := w.(writes := w.writes[1..]);
    DroppedWriteKeepsChain(s, w.disk, w.writes, Snapshot(w), w.wall);
    assert Inv(s, q);
    if w.writes[0].awaited {
      SaveKeepsInv(s, q.(task := Settling), q.memory.(failed := true), true);
    }
  }

  lemma GivingUpKeepsInv(s: RecoverySettings, w: World)
    requires Inv(s, w) && w.task == Settling
    ensures Inv(s, Step(s, w, TaskGivesUp))
  {
    ChainUnawaited(s, w.disk, w.writes, Snapshot(w), w.wall);
  }

  /** The recovery task moves on from the reload or from its verification. */
  lemma SettlingKeepsInv(s: RecoverySettings, w: World, memory: Memory)
    requires Inv(s, w) && (w.task == Reloading || w.task == Verifying)
    requires memory.reloads == w.memory.reloads && memory.inProgress == w.memory.inProgress
    ensures Inv(s, Save(w.(task := Settling, memory := memory), true))
  {
    SaveKeepsInv(s, w.(task := Settling), memory, true);
  }

  lemma ReloadReturnedKeepsInv(s: RecoverySettings, w: World, ok: bool)
    requires Inv(s, w) && w.task == Reloading
    ensures Inv(s, Step(s, w, ReloadReturned(ok)))
  {
    if !ok {
      SettlingKeepsInv(s, w, w.memory.(failed := true));
    }
  }

  lemma VerifyReturnedKeepsInv(s: RecoverySettings, w: World, ok: bool)
    requires Inv(s, w) && w.task == Verifying
    ensures Inv(s, Step(s, w, VerifyReturned(ok)))
  {
    if ok {
      SettlingKeepsInv(s, w, w.memory.ClearStreak());
    } else if |Recent(w.memory.reloads, w.wall)| >= MAX_RELOADS_PER_WINDOW {
      SettlingKeepsInv(s, w, w.memory.(failed := true));
    } else {
      SettlingKeepsInv(s, w, w.memory);
    }
  }

  lemma MarkHealthyKeepsInv(s: RecoverySettings, w: World)
    requires Inv(s, w) && w.marksPending > 0
    ensures Inv(s, Step(s, w, MarkHealthyRuns))
  {
    if w.memory.failed {
      SaveKeepsInv(s, w.(marksPending := w.marksPending - 1), w.memory.ClearStreak().(failed := false), false);
    }
  }

  lemma TaskRaisedKeepsInv(s: RecoverySettings, w: World)
    requires Inv(s, w) && (w.task == Reloading || w.task == Verifying)
    ensures Inv(s, Step(s, w, TaskRaised))
  {
    SettlingKeepsInv(s, w, w.memory.(failed := true));
  }

  lemma LatchTaskKeepsInv(s: RecoverySettings, w: World)
    requires Inv(s, w) && w.latchPending > 0
    ensures Inv(s, Step(s, w, LatchTaskRuns))
  {
    SaveKeepsInv(s, w.(latchPending := w.latchPending - 1), w.memory.(failed := true), false);
  }

  lemma AcknowledgeKeepsInv(s: RecoverySettings, w: World)
    requires Inv(s, w)
    ensures Inv(s, Step(s, w, Acknowledge))
  {
    SaveKeepsInv(s, w, w.memory.ClearStreak().(failed := false), false);
  }

  lemma ElapseKeepsInv(s: RecoverySettings, w: World, wall: real, mono: real)
    requires Inv(s, w) && w.wall <= wall && w.mono <= mono
    ensures Inv(s, Step(s, w, Elapse(wall, mono)))
  {
    ChainLater(s, w.disk, w.writes, Snapshot(w), w.wall, wall);
  }

  lemma StepKeepsInv(s: RecoverySettings, w: World, e: Event)
    requires s.cooldown > 0.0
    requires Inv(s, w) && Enabled(w, e)
    ensures Inv(s, Step(s, w, e))
  {
    match e {
      case Elapse(wall, mono) => ElapseKeepsInv(s, w, wall, mono);
      case ConsumerResult(outcome, healthy) => ConsumerResultKeepsInv(s, w, outcome, healthy);
      case TaskStarts => TaskStartsKeepsInv(s, w);
      case WriteDone => WriteDoneKeepsInv(s, w);
      case WriteFailed => WriteFailedKeepsInv(s, w);
      case ReloadReturned(ok) => ReloadReturnedKeepsInv(s, w, ok);
      case VerifyReturned(ok) => VerifyReturnedKeepsInv(s, w, ok);
      case TaskRaised => TaskRaisedKeepsInv(s, w);
      case TaskGivesUp => GivingUpKeepsInv(s, w);
      case LatchTaskRuns => LatchTaskKeepsInv(s, w);
      case MarkHealthyRuns => MarkHealthyKeepsInv(s, w);
      case Acknowledge => AcknowledgeKeepsInv(s, w);
      case Restart(mono) => RestartKeepsInv(s, w, mono);
    }
  }

  lemma RestartKeepsInv(s: RecoverySettings, w: World, mono: real)
    requires Inv(s, w)
    ensures Inv(s, Step(s, w, Restart(mono)))
  {
    var q := Step(s, w, Restart(mono));
    assert Chain(s, q.disk, [], Snapshot(q), q.wall);
  }

  lemma {:induction false} RunKeepsInv(s: RecoverySettings, start: World, events: seq<Event>)
    requires s.cooldown > 0.0
    requires Inv(s, start) && Run(s, start, events).Some?
    ensures Inv(s, Run(s, start, events).value)
  {
    if events != [] {
      var n := |events| - 1;
      RunKeepsInv(s, start, events[..n]);
      StepKeepsInv(s, Run(s, start, events[..n]).value, events[n]);
    }
  }

  // ---- The two-proof rule --------------------------------------------------

  predicate IsStaleProof(p: Proof) {
    p.outcome == Probes.CONSUMER_STALE && p.bridgeHealthy
  }

  /** A result that leaves a first proof taken at `first` standing. */
  predicate Harmless(s: RecoverySettings, p: Proof, first: real) {
    p.outcome == Probes.BRIDGE_BUSY || (IsStaleProof(p) && p.at - first < s.confirm)
  }

  ghost predicate FirstProof(s: RecoverySettings, proofs: seq<Proof>, i: nat) {
    i < |proofs| && IsStaleProof(proofs[i]) && forall k :: i < k < |proofs| ==> Harmless(s, proofs[k], proofs[i].at)
  }

  /** Proof j confirms proof i, with nothing but harmless results between them. */
  ghost predicate ConfirmedBy(s: RecoverySettings, proofs: seq<Proof>, i: nat, j: nat) {
    && i < j < |proofs| && IsStaleProof(proofs[i]) && IsStaleProof(proofs[j])
    && s.confirm <= proofs[j].at - proofs[i].at <= s.MaxGap()
    && forall k :: i < k < j ==> Harmless(s, proofs[k], proofs[i].at)
  }

  ghost predicate StreakInv(s: RecoverySettings, w: World) {
    && (w.memory.staleStreak > 0 && w.marksPending == 0 ==>
          && w.memory.lastStaleAt.Some?
          && exists i: nat :: FirstProof(s, w.proofs, i) && w.proofs[i].at == w.memory.lastStaleAt.value)
    && (w.task == Queued ==> exists i: nat, j: nat :: ConfirmedBy(s, w.proofs, i, j))
  }

  lemma ConfirmedStays(s: RecoverySettings, proofs: seq<Proof>, p: Proof)
    requires exists i: nat, j: nat :: ConfirmedBy(s, proofs, i, j)
    ensures exists i: nat, j: nat :: ConfirmedBy(s, proofs + [p], i, j)
  {
    var i: nat, j: nat :| ConfirmedBy(s, proofs, i, j);
    assert forall k :: 0 <= k < |proofs| ==> (proofs + [p])[k] == proofs[k];
    assert ConfirmedBy(s, proofs + [p], i, j);
  }

  lemma FirstProofStays(s: RecoverySettings, proofs: seq<Proof>, i: nat, p: Proof)
    requires FirstProof(s, proofs, i) && Harmless(s, p, proofs[i].at)
    ensures FirstProof(s, proofs + [p], i) && (proofs + [p])[i] == proofs[i]
  {
    assert forall k :: 0 <= k < |proofs| ==> (proofs + [p])[k] == proofs[k];
  }

  lemma ResultKeepsStreak(s: RecoverySettings, w: World, outcome: Probes.ProbeOutcome, healthy: bool)
    requires StreakInv(s, w) && w.marksPending == 0
    requires !s.enabled ==> w.memory.staleStreak == 0
    ensures StreakInv(s, Step(s, w, ConsumerResult(outcome, healthy)))
  {
    var p := Proof(outcome, healthy, w.mono);
    var more := w.proofs + [p];
    var q := Step(s, w, ConsumerResult(outcome, healthy));
    var m := w.memory;
    if w.task == Queued {
      ConfirmedStays(s, w.proofs, p);
    }
    assert more[|w.proofs|] == p;
    if s.enabled && IsStaleProof(p) {
      if m.StartsOver(w.mono, s.MaxGap()) {
        assert FirstProof(s, more, |w.proofs|);
      } else {
        var i: nat :| FirstProof(s, w.proofs, i) && w.proofs[i].at == m.lastStaleAt.value;
        if w.mono - m.lastStaleAt.value < s.confirm {
          FirstProofStays(s, w.proofs, i, p);
        } else {
          assert forall k :: 0 <= k < |w.proofs| ==> more[k] == w.proofs[k];
          assert ConfirmedBy(s, more, i, |w.proofs|);
        }
      }
    } else if outcome == Probes.BRIDGE_BUSY && m.staleStreak > 0 {
      var i: nat :| FirstProof(s, w.proofs, i) && w.proofs[i].at == m.lastStaleAt.value;
      FirstProofStays(s, w.proofs, i, p);
    }
  }

  lemma StepKeepsStreak(s: RecoverySettings, w: World, e: Event)
    requires StreakInv(s, w) && Enabled(w, e) && (e.ConsumerResult? ==> w.marksPending == 0)
    requires !s.enabled ==> w.memory.staleStreak == 0
    ensures StreakInv(s, Step(s, w, e))
    ensures !s.enabled ==> Step(s, w, e).memory.staleStreak == 0
  {
    match e {
      case ConsumerResult(outcome, healthy) => ResultKeepsStreak(s, w, outcome, healthy);
      case _ =>
    }
  }

  /** A mark-healthy task runs its first segment before the next consumer result comes. */
  ghost predicate MarksRunFirst(s: RecoverySettings, start: World, events: seq<Event>) {
    events == []
    || (MarksRunFirst(s, start, events[..|events| - 1])
        && (events[|events| - 1].ConsumerResult? ==>
              var before := Run(s, start, events[..|events| - 1]);
              before.Some? && before.value.marksPending == 0))
  }

  lemma {:induction false} RunKeepsStreak(s: RecoverySettings, wall: real, mono: real, events: seq<Event>)
    requires Run(s, NewWorld(wall, mono), events).Some? && MarksRunFirst(s, NewWorld(wall, mono), events)
    ensures StreakInv(s, Run(s, NewWorld(wall, mono), events).value)
    ensures !s.enabled ==> Run(s, NewWorld(wall, mono), events).value.memory.staleStreak == 0
  {
    if events != [] {
      var n := |events| - 1;
      RunKeepsStreak(s, wall, mono, events[..n]);
      StepKeepsStreak(s, Run(s, NewWorld(wall, mono), events[..n]).value, events[n]);
    }
  }

  // ---- What every run promises --------------------------------------------

  /**
   * The reload budget, across failures, acknowledgements and restarts: no 1800 s interval
   * holds three charges, any two charges are at least min(cooldown, 1800 s) apart, and the
   * same holds for the reloads that actually ran, each of which was charged in the store
   * before it began.
   */
  lemma ReloadsAreBudgeted(s: RecoverySettings, wall: real, mono: real, events: seq<Event>)
    requires s.cooldown > 0.0 && Run(s, NewWorld(wall, mono), events).Some?
    ensures var w := Run(s, NewWorld(wall, mono), events).value;
            && Budgeted(w.charges, s.Spacing())
            && Budgeted(w.disk.history, s.Spacing())
            && Budgeted(w.reloadsRun, s.Spacing())
            && (forall x :: x in w.reloadsRun ==> x in w.disk.history)
  {
    RunKeepsInv(s, NewWorld(wall, mono), events);
    var w := Run(s, NewWorld(wall, mono), events).value;
    ChainEnds(s, w.disk, w.writes, Snapshot(w), w.wall);
    SubsetIsBudgeted(w.reloadsRun, w.disk.history, s.Spacing());
  }

  /** Increasing stamps taken from a budgeted history are budgeted. */
  lemma SubsetIsBudgeted(part: seq<real>, whole: seq<real>, spacing: real)
    requires spacing > 0.0 && Budgeted(whole, spacing)
    requires forall x :: x in part ==> x in whole
    requires forall i, j :: 0 <= i < j < |part| ==> part[i] < part[j]
    ensures Budgeted(part, spacing)
  {
    forall start, i, j, k | 0 <= i < j < k < |part|
      ensures !(Within(part[i], start) && Within(part[j], start) && Within(part[k], start))
    {
      assert part[i] in part && part[j] in part && part[k] in part;
      var a := IndexedInOrder(whole, spacing, part[i], part[j]);
      var b := IndexedInOrder(whole, spacing, part[j], part[k]);
      SpacedAreDistinct(whole, spacing, a.1, b.0);
      assert !(Within(whole[a.0], start) && Within(whole[b.0], start) && Within(whole[b.1], start));
    }
    forall i, j | 0 <= i < j < |part| ensures part[j] - part[i] >= spacing {
      assert part[i] in part && part[j] in part;
      var a := IndexedInOrder(whole, spacing, part[i], part[j]);
    }
  }

  lemma SpacedAreDistinct(whole: seq<real>, spacing: real, a: nat, b: nat)
    requires spacing > 0.0 && Budgeted(whole, spacing) && a < |whole| && b < |whole| && whole[a] == whole[b]
    ensures a == b
  {
  }

  lemma IndexedInOrder(whole: seq<real>, spacing: real, x: real, y: real) returns (at: (nat, nat))
    requires spacing > 0.0 && Budgeted(whole, spacing) && x in whole && y in whole && x < y
    ensures at.0 < at.1 < |whole| && whole[at.0] == x && whole[at.1] == y
  {
    var a: nat :| a < |whole| && whole[a] == x;
    var b: nat :| b < |whole| && whole[b] == y;
    at := (a, b);
  }

  /**
   * Exclusion: a reload runs only inside the one recovery in progress, and no request can
   * start another until that recovery has ended.
   */
  lemma OneReloadAtATime(s: RecoverySettings, wall: real, mono: real, events: seq<Event>, outcome: Probes.ProbeOutcome,
      healthy: bool)
    requires s.cooldown > 0.0 && Run(s, NewWorld(wall, mono), events).Some?
    requires var w := Run(s, NewWorld(wall, mono), events).value; w.task != NoTask
    ensures var w := Run(s, NewWorld(wall, mono), events).value;
            && w.memory.inProgress
            && Step(s, w, ConsumerResult(outcome, healthy)).task == w.task
            && w.memory.OnConsumerResult(s, outcome, healthy, w.mono, w.wall).1 in {None, Some(InProgress)}
  {
    RunKeepsInv(s, NewWorld(wall, mono), events);
  }

  /**
   * Two proofs: every charge follows two consumer-stale results obtained since the previous
   * charge with the bridge healthy, at least `confirm` and at most the maximum gap apart,
   * with only busy or too-early stale results between them; and recovery was enabled.
   */
  lemma ChargeNeedsTwoProofs(s: RecoverySettings, wall: real, mono: real, events: seq<Event>)
    requires var w := Run(s, NewWorld(wall, mono), events); w.Some? && w.value.task == Queued
    requires MarksRunFirst(s, NewWorld(wall, mono), events)
    ensures exists i: nat, j: nat :: ConfirmedBy(s, Run(s, NewWorld(wall, mono), events).value.proofs, i, j)
  {
    RunKeepsStreak(s, wall, mono, events);
  }

  // ---- The cooldown --------------------------------------------------------

  /** Nothing is under way, nothing is counted, and no charge is recent. */
  ghost predicate Calm(w: World) {
    && !w.memory.inProgress && !w.memory.failed && w.memory.staleStreak == 0
    && w.task == NoTask && w.writes == [] && Recent(w.memory.reloads, w.wall) == []
  }

  /** Two proofs that confirm each other. */
  function TwoProofs(s: RecoverySettings, w: World): seq<Event> {
    [ConsumerResult(Probes.CONSUMER_STALE, true), Elapse(w.wall, w.mono + s.confirm),
        ConsumerResult(Probes.CONSUMER_STALE, true)]
  }

  const RELOAD := [TaskStarts, WriteDone, ReloadReturned(true), VerifyReturned(true), WriteDone]

  lemma RunGrows(s: RecoverySettings, start: World, events: seq<Event>, e: Event)
    requires Run(s, start, events).Some? && Enabled(Run(s, start, events).value, e)
    ensures Run(s, start, events + [e]) == Some(Step(s, Run(s, start, events).value, e))
  {
    assert (events + [e])[..|events|] == events;
  }

  lemma {:induction false} RunsCompose(s: RecoverySettings, start: World, first: seq<Event>, second: seq<Event>)
    requires Run(s, start, first).Some?
    ensures Run(s, start, first + second) == Run(s, Run(s, start, first).value, second)
  {
    if second == [] {
      assert first + second == first;
    } else {
      var n := |second| - 1;
      RunsCompose(s, start, first, second[..n]);
      assert (first + second)[..|first + second| - 1] == first + second[..n];
    }
  }

  lemma ProofsStartReload(s: RecoverySettings, w: World)
    requires s.Valid() && s.enabled && Calm(w)
    ensures var after := Run(s, w, TwoProofs(s, w));
            && after.Some? && after.value.task == Queued && after.value.memory.inProgress && !after.value.memory.failed
            && after.value.memory.reloads == w.memory.reloads && after.value.charges == w.charges
            && after.value.writes == [] && after.value.wall == w.wall
  {
    var stale := ConsumerResult(Probes.CONSUMER_STALE, true);
    var one := Step(s, w, stale);
    var two := Step(s, one, Elapse(w.wall, w.mono + s.confirm));
    RunGrows(s, w, [], stale);
    RunGrows(s, w, [stale], Elapse(w.wall, w.mono + s.confirm));
    RunGrows(s, w, [stale, Elapse(w.wall, w.mono + s.confirm)], stale);
    assert [] + [stale] == [stale] && [stale] + [Elapse(w.wall, w.mono + s.confirm)] == TwoProofs(s, w)[..2];
    assert TwoProofs(s, w)[..2] + [stale] == TwoProofs(s, w);
    assert one.memory.staleStreak == 1 && one.memory.lastStaleAt == Some(w.mono);
    assert two.memory.RequestRecovery(two.wall, s.cooldown).1 == Started;
  }

  lemma ReloadCompletes(s: RecoverySettings, w: World)
    requires w.task == Queued && w.memory.inProgress && !w.memory.failed && w.writes == []
             && Recent(w.memory.reloads, w.wall) == []
    ensures var after := Run(s, w, RELOAD);
            && after.Some? && after.value.memory == NEW_MEMORY.(reloads := [w.wall]) && after.value.task == NoTask
            && after.value.writes == [] && after.value.wall == w.wall && after.value.charges == w.charges + [w.wall]
  {
    var one := Step(s, w, TaskStarts);
    var two := Step(s, one, WriteDone);
    var three := Step(s, two, ReloadReturned(true));
    var four := Step(s, three, VerifyReturned(true));
    RunGrows(s, w, [], TaskStarts);
    assert [] + [TaskStarts] == RELOAD[..1];
    RunGrows(s, w, RELOAD[..1], WriteDone);
    assert RELOAD[..1] + [WriteDone] == RELOAD[..2];
    RunGrows(s, w, RELOAD[..2], ReloadReturned(true));
    assert RELOAD[..2] + [ReloadReturned(true)] == RELOAD[..3];
    RunGrows(s, w, RELOAD[..3], VerifyReturned(true));
    assert RELOAD[..3] + [VerifyReturned(true)] == RELOAD[..4];
    RunGrows(s, w, RELOAD[..4], WriteDone);
    assert RELOAD[..4] + [WriteDone] == RELOAD;
  }

  /** Two proofs and the reload they start. */
  lemma RoundCharges(s: RecoverySettings, w: World)
    requires s.Valid() && s.enabled && Calm(w)
    ensures var after := Run(s, w, TwoProofs(s, w) + RELOAD);
            && after.Some? && after.value.memory == NEW_MEMORY.(reloads := [w.wall]) && after.value.task == NoTask
            && after.value.writes == [] && after.value.wall == w.wall && after.value.charges == w.charges + [w.wall]
  {
    ProofsStartReload(s, w);
    RunsCompose(s, w, TwoProofs(s, w), RELOAD);
    ReloadCompletes(s, Run(s, w, TwoProofs(s, w)).value);
  }

  /** A second reload one window after the first, whatever the cooldown. */
  lemma ReloadsOneWindowApart(s: RecoverySettings) returns (events: seq<Event>)
    requires s.Valid() && s.enabled
    ensures var w := Run(s, NewWorld(0.0, 0.0), events);
            w.Some? && w.value.charges == [0.0, RECOVERY_WINDOW_SECONDS]
  {
    var start := NewWorld(0.0, 0.0);
    var first := TwoProofs(s, start) + RELOAD;
    RoundCharges(s, start);
    var one := Run(s, start, first).value;
    var wait := Elapse(RECOVERY_WINDOW_SECONDS, one.mono);
    RunGrows(s, start, first, wait);
    var two := Step(s, one, wait);
    assert [0.0][..0] == [] && Recent([0.0][..0], two.wall) == [];
    assert Recent(two.memory.reloads, two.wall) == [];
    RoundCharges(s, two);
    RunsCompose(s, start, first + [wait], TwoProofs(s, two) + RELOAD);
    events := first + [wait] + (TwoProofs(s, two) + RELOAD);
  }

  /** In every run, any two charges are at least this long apart. */
  ghost predicate ChargesApart(s: RecoverySettings, seconds: real) {
    forall wall: real, mono: real, events: seq<Event>, i, j ::
      var w := Run(s, NewWorld(wall, mono), events);
      w.Some? && 0 <= i < j < |w.value.charges| ==> w.value.charges[j] - w.value.charges[i] >= seconds
  }

  /**
   * The cooldown separates any two reloads, in every run, exactly when it is no longer than
   * the window, or recovery is off.
   */
  lemma CooldownHonouredExactly(s: RecoverySettings)
    requires s.Valid()
    ensures ChargesApart(s, s.cooldown) <==> s.cooldown <= RECOVERY_WINDOW_SECONDS || !s.enabled
  {
    if s.cooldown <= RECOVERY_WINDOW_SECONDS {
      forall wall: real, mono: real, events: seq<Event>, i, j
        | var w := Run(s, NewWorld(wall, mono), events); w.Some? && 0 <= i < j < |w.value.charges|
        ensures var w := Run(s, NewWorld(wall, mono), events);
                w.value.charges[j] - w.value.charges[i] >= s.cooldown
      {
        ReloadsAreBudgeted(s, wall, mono, events);
      }
    } else if !s.enabled {
      forall wall: real, mono: real, events: seq<Event> | Run(s, NewWorld(wall, mono), events).Some?
        ensures Run(s, NewWorld(wall, mono), events).value.charges == []
      {
        DisabledNeverCharges(s, wall, mono, events);
      }
    } else {
      var events := ReloadsOneWindowApart(s);
      var w := Run(s, NewWorld(0.0, 0.0), events).value;
      assert w.charges[1] - w.charges[0] < s.cooldown;
    }
  }

  /** Nothing was ever charged, on disk or on its way there, and nobody waits for a write. */
  ghost predicate Uncharged(w: World) {
    w.task == NoTask && w.charges == [] && w.disk.history == [] && NoneCharged(w.writes)
  }

  ghost predicate NoneCharged(writes: seq<Write>) {
    forall i :: 0 <= i < |writes| ==> writes[i].data.history == [] && !writes[i].awaited
  }

  lemma {:induction false} UnawaitedKeepsData(writes: seq<Write>)
    ensures NoneCharged(writes) ==> NoneCharged(Unawaited(writes))
  {
    if writes != [] {
      UnawaitedKeepsData(writes[1..]);
    }
  }

  lemma DisabledStepKeepsUncharged(s: RecoverySettings, w: World, e: Event)
    requires !s.enabled && Uncharged(w) && Enabled(w, e)
    ensures Uncharged(Step(s, w, e))
  {
    UnawaitedKeepsData(w.writes);
  }

  lemma {:induction false} DisabledNeverCharges(s: RecoverySettings, wall: real, mono: real, events: seq<Event>)
    requires !s.enabled && Run(s, NewWorld(wall, mono), events).Some?
    ensures Uncharged(Run(s, NewWorld(wall, mono), events).value)
  {
    if events != [] {
      var n := |events| - 1;
      DisabledNeverCharges(s, wall, mono, events[..n]);
      DisabledStepKeepsUncharged(s, Run(s, NewWorld(wall, mono), events[..n]).value, events[n]);
    }
  }

  // ---- The classes --------------------------------------------------------

  class RecoveryManager {
    var inProgress: bool
    var reloads: seq<real>
    var failed: bool
    var staleStreak: nat
    var lastStaleAt: Option<real>

    function View(): Memory
      reads this
    {
      Memory(inProgress, reloads, failed, staleStreak, lastStaleAt)
    }

    /** A manager, with what the store held for its entry. */
    constructor (reloads: seq<real>, failed: bool)
      ensures View() == NEW_MEMORY.(reloads := reloads, failed := failed)
    {
      inProgress := false;
      this.reloads, this.failed := reloads, failed;
      staleStreak, lastStaleAt := 0, None;
    }

    /** recent_reloads. */
    method RecentReloads(wall: real) returns (recent: seq<real>)
      ensures recent == Recent(reloads, wall)
    {
      recent := [];
      var i := 0;
      while i < |reloads|
        invariant 0 <= i <= |reloads|
        invariant recent == Recent(reloads[..i], wall)
      {
        assert reloads[..i + 1][..i] == reloads[..i];
        if wall - reloads[i] < RECOVERY_WINDOW_SECONDS {
          recent := recent + [reloads[i]];
        }
        i := i + 1;
      }
      assert reloads[..i] == reloads;
    }

    method ClearStreak()
      modifies this`staleStreak, this`lastStaleAt
      ensures View() == old(View()).ClearStreak()
    {
      staleStreak := 0;
      lastStaleAt := None;
    }

    method RecordStale(mono: real, confirm: real, maxGap: real) returns (confirmed: bool)
      modifies this`staleStreak, this`lastStaleAt
      ensures (View(), confirmed) == old(View()).RecordStale(mono, confirm, maxGap)
      ensures confirmed ==> old(View()).Confirms(mono, confirm, maxGap)
    {
      if lastStaleAt.None? || staleStreak == 0 || mono - lastStaleAt.value > maxGap {
        staleStreak := 1;
        lastStaleAt := Some(mono);
        return false;
      }
      if mono - lastStaleAt.value < confirm {
        return false;
      }
      ClearStreak();
      return true;
    }

    method RequestRecovery(wall: real, cooldown: real) returns (answer: Answer)
      modifies this`inProgress
      ensures (View(), answer) == old(View()).RequestRecovery(wall, cooldown)
    {
      if inProgress {
        return InProgress;
      }
      if failed {
        return RecoveryFailed;
      }
      var recent := RecentReloads(wall);
      if |recent| >= MAX_RELOADS_PER_WINDOW {
        return BudgetExhausted;
      }
      if |recent| > 0 && wall - Max(recent) < cooldown {
        return Cooldown;
      }
      inProgress := true;
      return Started;
    }

    /** The first segment of _async_recover: charge the budget before acting. */
    method ChargeBudget(wall: real)
      modifies this`reloads, this`staleStreak, this`lastStaleAt
      ensures View() == old(View()).Charge(wall)
    {
      var recent := RecentReloads(wall);
      reloads := recent + [wall];
      ClearStreak();
    }
  }

  class HealthCoordinator {
    const settings: RecoverySettings
    const manager: RecoveryManager
    var lastConsumer: Option<Probes.ProbeOutcome>

    constructor (settings: RecoverySettings, manager: RecoveryManager)
      ensures this.settings == settings && this.manager == manager && lastConsumer == None
    {
      this.settings := settings;
      this.manager := manager;
      lastConsumer := None;
    }

    /** _on_probe_result for a consumer result; `reschedule` asks for a confirming probe. */
    method OnConsumerResult(outcome: Probes.ProbeOutcome, bridgeHealthy: bool, mono: real, wall: real)
      returns (answer: Option<Answer>, markHealthy: bool, reschedule: Option<real>)
      modifies this, manager
      ensures (manager.View(), answer, markHealthy) ==
              old(manager.View()).OnConsumerResult(settings, outcome, bridgeHealthy, mono, wall)
      ensures lastConsumer == if outcome in {Probes.BRIDGE_BUSY, Probes.SUPERSEDED} then old(lastConsumer)
              else Some(outcome)
      ensures reschedule.Some? <==>
                outcome == Probes.CONSUMER_STALE && settings.enabled && bridgeHealthy && answer.None?
      ensures reschedule.Some? ==> reschedule.value == settings.confirm
    {
      answer, markHealthy, reschedule := None, false, None;
      if outcome != Probes.BRIDGE_BUSY && outcome != Probes.SUPERSEDED {
        lastConsumer := Some(outcome);
      }
      if outcome == Probes.OK {
        markHealthy := manager.staleStreak > 0 || manager.failed;
      } else if outcome == Probes.CONSUMER_STALE {
        answer, reschedule := OnConsumerStale(bridgeHealthy, mono, wall);
      } else if outcome != Probes.BRIDGE_BUSY {
        manager.ClearStreak();
      }
    }

    method OnConsumerStale(bridgeHealthy: bool, mono: real, wall: real)
        returns (answer: Option<Answer>, reschedule: Option<real>)
      modifies manager
      ensures (manager.View(), answer) == old(manager.View()).OnStale(settings, bridgeHealthy, mono, wall)
      ensures reschedule == if settings.enabled && bridgeHealthy && answer.None? then Some(settings.confirm) else None
    {
      if !settings.enabled {
        return None, None;
      }
      if !bridgeHealthy {
        manager.ClearStreak();
        return None, None;
      }
      var maxGap := 3.0 * settings.confirm + settings.probeDeadline + settings.consumerProbeInterval;
      var confirmed := manager.RecordStale(mono, settings.confirm, maxGap);
      if confirmed {
        var started := manager.RequestRecovery(wall, settings.cooldown);
        return Some(started), None;
      }
      return None, Some(settings.confirm);
    }
  }
}
