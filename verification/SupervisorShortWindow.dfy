/**
 * Settings.from_env lets the short window be longer than the long one. Then the short
 * budget fails: charges are forgotten after the long window, so one more is made while the
 * first ones still lie inside the short window.
 */
module SupervisorShortWindow {
  import opened Basics
  import opened SupervisorState
  import opened SupervisorMachine
  import opened SupervisorBudget
  import opened SupervisorRuns

  const BOOT := "boot"
  const FIRST := Reading(Some(BOOT), 0.0, 0.0, 601.0)
  const RUNNING := Properties(Active, Some(1), false, None)

  /** A different instance for each pass. */
  function Instance(n: nat): (id: string)
    requires n < 10
    ensures IsInstanceId(id)
    ensures id[0] == "0123456789"[n]
  {
    seq(32, i => if i == 0 then "0123456789"[n] else '0')
  }

  /** The record of a bridge that has been discovering since time zero. */
  function Stuck(n: nat): Record
    requires n < 10
  {
    Record(Instance(n), 1, Discovering, 0.0, true, 0)
  }

  /** One pass that charges a reset and crashes right after. */
  function Cycle(n: nat): seq<Event>
    requires n < 10
  {
    [Look(RUNNING, Some(Stuck(n))), Choose, Save, Charge, Crash]
  }

  /** After n such passes. */
  ghost predicate Stage(m: Machine, n: nat) {
    && m.pc == Idle && m.exits == [] && m.h.unsaved == [] && m.now.boot == Some(BOOT)
        && m.now.monotonic >= FIRST.monotonic
    && !m.disk.recoveryFailed && m.disk.startupFailureStreak == 0
    && |m.disk.stuckCounted| <= n
    && forall i :: 0 <= i < |m.disk.stuckCounted| ==> OlderInstance(m.disk.stuckCounted[i], n)
  }

  predicate OlderInstance(id: string, n: nat) {
    |id| == 32 && '0' <= id[0] <= '9' && (id[0] as int) - ('0' as int) < n
  }

  lemma FreshInstance(n: nat)
    requires n < 10
    ensures !OlderInstance(Instance(n), n) && OlderInstance(Instance(n), n + 1)
  {
    assert "0123456789"[n] as int == '0' as int + n;
  }

  /** Seeing a stuck instance for the first time is evidence enough for a reset. */
  lemma StuckIsEvidence(cfg: Settings, m: Machine, n: nat)
    requires n < 10 && Stage(m, n)
    ensures var s := Observed(m.disk, RUNNING, Some(Stuck(n)), [], m.now, cfg);
            && |s.bleFailures| >= cfg.failuresToReset && s.startupFailureStreak == 0 && !s.recoveryFailed
            && s.resets == Recent(m.disk.resets, m.now, cfg.longWindow)
            && s.stuckCounted == LastSeen(m.disk.stuckCounted + [Instance(n)])
  {
    FreshInstance(n);
    assert Instance(n) !in m.disk.stuckCounted;
  }

  /** The budget allows one more charge, once the list is pruned. */
  predicate HasBudget(cfg: Settings, m: Machine) {
    var kept := Recent(m.disk.resets, m.now, cfg.longWindow);
    |Recent(kept, m.now, cfg.shortWindow)| < cfg.maxResetsShort
        && |Recent(kept, m.now, cfg.longWindow)| < cfg.maxResetsLong
  }

  /** The pass of a cycle, when it is about to charge. */
  function BeforeCharge(cfg: Settings, m: Machine, n: nat): Machine
    requires n < 10
  {
    var looked := LookStep(cfg, m, RUNNING, Some(Stuck(n)));
    Persist(looked).(previous := Some(Instance(n)), pc := Charging)
  }

  lemma CycleReachesCharge(cfg: Settings, m: Machine, n: nat)
    requires n < 10 && Stage(m, n) && HasBudget(cfg, m)
    ensures Run(cfg, m, Cycle(n)[..3]) == Some(BeforeCharge(cfg, m, n))
  {
    var events := Cycle(n);
    StuckIsEvidence(cfg, m, n);
    var looked := LookStep(cfg, m, RUNNING, Some(Stuck(n)));
    assert Decide(looked.mem, RUNNING, Some(Stuck(n)), m.now, cfg).action == Recover;
    assert events[..1][..0] == [] && events[..2][..1] == events[..1] && events[..3][..2] == events[..2];
    assert Run(cfg, m, events[..1]) == Some(looked);
    assert Run(cfg, m, events[..2]) == Some(ChooseStep(cfg, looked));
  }

  lemma CycleEnds(cfg: Settings, m: Machine, n: nat)
    requires n < 10 && Stage(m, n) && HasBudget(cfg, m)
    ensures Run(cfg, m, Cycle(n)) == Some(CrashStep(ChargeStep(BeforeCharge(cfg, m, n))))
  {
    CycleReachesCharge(cfg, m, n);
    var begun := Cycle(n)[..3];
    RunGrows(cfg, m, begun, Charge);
    RunGrows(cfg, m, begun + [Charge], Crash);
    assert Cycle(n) == begun + [Charge] + [Crash];
  }

  /** Where the budget allows it, one pass makes one more charge. */
  lemma CycleCharges(cfg: Settings, m: Machine, n: nat)
    requires n < 10 && Stage(m, n) && HasBudget(cfg, m)
    ensures var after := Run(cfg, m, Cycle(n));
            && after.Some? && Stage(after.value, n + 1) && after.value.now == m.now
            && after.value.disk.resets == Recent(m.disk.resets, m.now, cfg.longWindow) + [m.now.Mark()]
            && after.value.h.charges == m.h.charges + [m.now.Mark()]
  {
    CycleEnds(cfg, m, n);
    StuckIsEvidence(cfg, m, n);
    FreshInstance(n);
  }

  lemma {:induction false} RunsCompose(cfg: Settings, start: Machine, first: seq<Event>, second: seq<Event>)
    requires Run(cfg, start, first).Some?
    ensures Run(cfg, start, first + second) == Run(cfg, Run(cfg, start, first).value, second)
  {
    if second == [] {
      assert first + second == first;
    } else {
      var n := |second| - 1;
      RunsCompose(cfg, start, first, second[..n]);
      assert (first + second)[..|first + second| - 1] == first + second[..n];
    }
  }

  function Copies(n: nat): (stamps: seq<Stamp>)
    ensures |stamps| == n
  {
    if n == 0 then [] else Copies(n - 1) + [FIRST.Mark()]
  }

  lemma {:induction false} CopiesAreRecent(n: nat, window: real)
    requires window > 0.0
    ensures Recent(Copies(n), FIRST, window) == Copies(n)
    ensures CountIn(Copies(n), BOOT, 0.0, window) == n
  {
    if n > 0 {
      CopiesAreRecent(n - 1, window);
      assert Copies(n)[..n - 1] == Copies(n - 1);
    }
  }

  lemma {:induction false} CopiesAreForgotten(n: nat, now: Reading, window: real)
    requires now.boot == Some(BOOT) && now.t >= window
    ensures Recent(Copies(n), now, window) == []
  {
    if n > 0 {
      CopiesAreForgotten(n - 1, now, window);
      assert Copies(n)[..n - 1] == Copies(n - 1);
    }
  }

  /** The short budget spent at time zero. */
  lemma {:induction false} SpendAtOnce(cfg: Settings, n: nat) returns (events: seq<Event>)
    requires cfg.Valid() && n <= cfg.maxResetsShort
    ensures var m := Run(cfg, Installed(FIRST, []), events);
            && m.Some? && Stage(m.value, n) && m.value.now == FIRST
            && m.value.disk.resets == Copies(n) && m.value.h.charges == Copies(n)
  {
    if n == 0 {
      return [];
    }
    var before := SpendAtOnce(cfg, n - 1);
    var m := Run(cfg, Installed(FIRST, []), before).value;
    CopiesAreRecent(n - 1, cfg.longWindow);
    CopiesAreRecent(n - 1, cfg.shortWindow);
    CycleCharges(cfg, m, n - 1);
    RunsCompose(cfg, Installed(FIRST, []), before, Cycle(n - 1));
    return before + Cycle(n - 1);
  }

  /** One charge more, as soon as the long window has forgotten the first ones. */
  lemma OneTooMany(cfg: Settings) returns (events: seq<Event>, m: Machine)
    requires cfg.Valid() && cfg.longWindow < cfg.shortWindow
    ensures Reaches(cfg, events, m) && CountIn(m.h.charges, BOOT, 0.0, cfg.shortWindow) == cfg.maxResetsShort + 1
  {
    var n := cfg.maxResetsShort;
    var spent := SpendAtOnce(cfg, n);
    var start := Installed(FIRST, []);
    var before := Run(cfg, start, spent).value;
    var later := Reading(Some(BOOT), cfg.longWindow, cfg.longWindow, 601.0 + cfg.longWindow);
    RunGrows(cfg, start, spent, Elapse(later));
    var waited := Step(cfg, before, Elapse(later));
    CopiesAreForgotten(n, later, cfg.longWindow);
    CycleCharges(cfg, waited, n);
    events := spent + [Elapse(later)] + Cycle(n);
    RunsCompose(cfg, start, spent + [Elapse(later)], Cycle(n));
    m := Run(cfg, start, events).value;
    CopiesAreRecent(n, cfg.shortWindow);
    AppendCount(Copies(n), later.Mark(), BOOT, 0.0, cfg.shortWindow);
  }

  /** The short budget holds in every run exactly when the short window is no longer than the long one. */
  lemma ShortBudgetHoldsExactly(cfg: Settings)
    requires cfg.Valid()
    ensures (forall events: seq<Event>, m: Machine ::
               Reaches(cfg, events, m) ==> Budgeted(m.h.charges, cfg.shortWindow, cfg.maxResetsShort))
            <==> cfg.shortWindow <= cfg.longWindow
  {
    if cfg.shortWindow <= cfg.longWindow {
      forall events: seq<Event>, m: Machine | Reaches(cfg, events, m)
        ensures Budgeted(m.h.charges, cfg.shortWindow, cfg.maxResetsShort)
      {
        ResetsAreBudgeted(cfg, events, m);
      }
    } else {
      var events, m := OneTooMany(cfg);
      assert !Budgeted(m.h.charges, cfg.shortWindow, cfg.maxResetsShort);
    }
  }
}
