/**
 * The Bluetooth reset budget of the supervisor, over every run with crashes and reboots.
 *
 * A pass decides from a list pruned to the long window; the promise is about every charge
 * ever persisted. Within one boot the two agree on what is recent, and that is enough for
 * the long window always, and for the short window exactly when it is no longer.
 */
module SupervisorBudget {
  import opened Basics
  import opened SupervisorState
  import opened SupervisorMachine

  /** The stamps of one boot after a time. */
  ghost function Select(stamps: seq<Stamp>, boot: string, after: real): (selected: seq<Stamp>) {
    if stamps == [] then []
    else
      var rest, last := Select(stamps[..|stamps| - 1], boot, after), stamps[|stamps| - 1];
      if last.boot == Some(boot) && last.t > after then rest + [last] else rest
  }

  /** How many stamps of one boot lie in a half-open interval. */
  ghost function CountIn(stamps: seq<Stamp>, boot: string, start: real, window: real): (n: nat) {
    if stamps == [] then 0
    else
      var last := stamps[|stamps| - 1];
      CountIn(stamps[..|stamps| - 1], boot, start, window)
      + if last.boot == Some(boot) && start <= last.t < start + window then 1 else 0
  }

  lemma Append(stamps: seq<Stamp>, s: Stamp, boot: string, after: real)
    ensures Select(stamps + [s], boot, after)
            == Select(stamps, boot, after) + if s.boot == Some(boot) && s.t > after then [s] else []
  {
    assert (stamps + [s])[..|stamps|] == stamps;
  }

  lemma AppendCount(stamps: seq<Stamp>, s: Stamp, boot: string, start: real, window: real)
    ensures CountIn(stamps + [s], boot, start, window)
            == CountIn(stamps, boot, start, window) + if s.boot == Some(boot) && start <= s.t < start + window then 1
                else 0
  {
    assert (stamps + [s])[..|stamps|] == stamps;
  }

  lemma {:induction false} SelectOfSelect(stamps: seq<Stamp>, boot: string, early: real, late: real)
    requires early <= late
    ensures Select(Select(stamps, boot, early), boot, late) == Select(stamps, boot, late)
  {
    if stamps != [] {
      var n := |stamps| - 1;
      SelectOfSelect(stamps[..n], boot, early, late);
      Append(Select(stamps[..n], boot, early), stamps[n], boot, late);
    }
  }

  /** Pruning loses nothing of the current boot that is still inside the window. */
  lemma {:induction false} SelectOfRecent(stamps: seq<Stamp>, now: Reading, window: real)
    requires now.boot.Some?
    ensures Select(Recent(stamps, now, window), now.boot.value, now.t - window)
            == Select(stamps, now.boot.value, now.t - window)
    ensures |Select(stamps, now.boot.value, now.t - window)| <= |Recent(stamps, now, window)|
  {
    if stamps != [] {
      var n := |stamps| - 1;
      SelectOfRecent(stamps[..n], now, window);
      Append(Recent(stamps[..n], now, window), stamps[n], now.boot.value, now.t - window);
    }
  }

  lemma {:induction false} CountedAreSelected(stamps: seq<Stamp>, boot: string, start: real, window: real, after: real)
    requires after < start
    ensures CountIn(stamps, boot, start, window) <= |Select(stamps, boot, after)|
  {
    if stamps != [] {
      CountedAreSelected(stamps[..|stamps| - 1], boot, start, window, after);
    }
  }

  lemma {:induction false} StrangersAreNotSelected(stamps: seq<Stamp>, boots: set<string>, boot: string, after: real)
    requires OnlyFrom(stamps, boots) && boot !in boots
    ensures Select(stamps, boot, after) == []
  {
    if stamps != [] {
      StrangersAreNotSelected(stamps[..|stamps| - 1], boots, boot, after);
    }
  }

  // ---- The pruned list decides like the full history -----------------------

  /**
   * Once pruned to a window, a list still answers every question about an equal or shorter
   * window as the unpruned list does, as long as neither clock has gone back since.
   */
  lemma {:induction false} PrunedDecidesLikeHistory(history: seq<Stamp>, pruned: Reading, now: Reading, kept: real,
      asked: real)
    requires pruned.AtMost(now) && pruned.wall <= now.wall && asked <= kept
    ensures Recent(Recent(history, pruned, kept), now, asked) == Recent(history, now, asked)
  {
    if history != [] {
      var n := |history| - 1;
      PrunedDecidesLikeHistory(history[..n], pruned, now, kept, asked);
      var rest := Recent(history[..n], pruned, kept);
      assert (rest + [history[n]])[..|rest|] == rest;
    }
  }

  /** For a longer window it does not: what was pruned is missing. */
  lemma PrunedForgetsLongerWindows(now: Reading, kept: real, asked: real)
    requires kept < asked
    ensures exists history: seq<Stamp> ::
            |Recent(Recent(history, now, kept), now, asked)| < |Recent(history, now, asked)|
  {
    var past := [Stamp(now.boot, now.t - kept, now.wall - kept)];
    assert past[..0] == [];
    assert Recent(past[..0], now, kept) == [] && Recent(past[..0], now, asked) == [];
    assert Recent(past, now, kept) == [];
    assert Recent(past, now, asked) == past;
  }

  // ---- The ledger ----------------------------------------------------------

  /** What the budget depends on; `mem` is the list of the pass under way, `due` that it will charge. */
  datatype Ledger = Ledger(
    now: Reading, boots: set<string>, charges: seq<Stamp>, disk: seq<Stamp>, mem: Option<seq<Stamp>>, due: bool)

  ghost function LedgerOf(m: Machine): Ledger {
    Ledger(m.now, m.h.boots, m.h.charges, m.disk.resets, if m.pc == Idle then None else Some(m.mem.resets),
           m.pc == Charging || m.pc == Saving(Charging))
  }

  ghost predicate OnlyFrom(stamps: seq<Stamp>, boots: set<string>) {
    forall i :: 0 <= i < |stamps| && stamps[i].boot.Some? ==> stamps[i].boot.value in boots
  }

  /** The two lists hold the same recent charges of the current boot. */
  ghost predicate SameRecent(kept: seq<Stamp>, charges: seq<Stamp>, now: Reading, window: real) {
    now.boot.Some? ==>
      Select(kept, now.boot.value, now.t - window) == Select(charges, now.boot.value, now.t - window)
  }

  ghost predicate KnownBoots(l: Ledger) {
    && (l.now.boot.Some? ==> l.now.boot.value in l.boots)
    && OnlyFrom(l.charges, l.boots) && OnlyFrom(l.disk, l.boots)
    && (l.mem.Some? ==> OnlyFrom(l.mem.value, l.boots))
  }

  ghost predicate Remembers(cfg: Settings, l: Ledger) {
    && SameRecent(l.disk, l.charges, l.now, cfg.longWindow)
    && (l.mem.Some? ==> SameRecent(l.mem.value, l.charges, l.now, cfg.longWindow))
  }

  /** Fewer than `max` charges of the current boot lie inside the window. */
  ghost predicate HasRoom(stamps: seq<Stamp>, now: Reading, window: real, max: nat) {
    now.boot.Some? ==> |Select(stamps, now.boot.value, now.t - window)| < max
  }

  ghost predicate MayCharge(cfg: Settings, l: Ledger) {
    l.due ==>
      && l.mem.Some?
      && HasRoom(l.mem.value, l.now, cfg.longWindow, cfg.maxResetsLong)
      && (cfg.shortWindow <= cfg.longWindow ==> HasRoom(l.mem.value, l.now, cfg.shortWindow, cfg.maxResetsShort))
  }

  /** No half-open interval of the window holds more than `max` charges of any one boot. */
  ghost predicate Budgeted(charges: seq<Stamp>, window: real, max: nat) {
    forall boot: string, start: real :: CountIn(charges, boot, start, window) <= max
  }

  ghost predicate WithinBudget(cfg: Settings, charges: seq<Stamp>) {
    && Budgeted(charges, cfg.longWindow, cfg.maxResetsLong)
    && (cfg.shortWindow <= cfg.longWindow ==> Budgeted(charges, cfg.shortWindow, cfg.maxResetsShort))
  }

  ghost predicate BudgetInv(cfg: Settings, l: Ledger) {
    KnownBoots(l) && Remembers(cfg, l) && MayCharge(cfg, l) && WithinBudget(cfg, l.charges)
  }

  // ---- What happens to the ledger -------------------------------------------

  lemma {:induction false} OnlyFromRecent(stamps: seq<Stamp>, now: Reading, window: real, boots: set<string>)
    requires OnlyFrom(stamps, boots)
    ensures OnlyFrom(Recent(stamps, now, window), boots)
  {
    if stamps != [] {
      OnlyFromRecent(stamps[..|stamps| - 1], now, window, boots);
    }
  }

  lemma SameRecentLater(kept: seq<Stamp>, charges: seq<Stamp>, now: Reading, later: Reading, window: real)
    requires SameRecent(kept, charges, now, window) && now.AtMost(later)
    ensures SameRecent(kept, charges, later, window)
  {
    if now.boot.Some? {
      SelectOfSelect(kept, now.boot.value, now.t - window, later.t - window);
      SelectOfSelect(charges, now.boot.value, now.t - window, later.t - window);
    }
  }

  lemma {:induction false} FewerLater(stamps: seq<Stamp>, boot: string, early: real, late: real)
    requires early <= late
    ensures |Select(stamps, boot, late)| <= |Select(stamps, boot, early)|
  {
    if stamps != [] {
      FewerLater(stamps[..|stamps| - 1], boot, early, late);
    }
  }

  lemma RoomLater(stamps: seq<Stamp>, now: Reading, later: Reading, window: real, max: nat)
    requires HasRoom(stamps, now, window, max) && now.AtMost(later)
    ensures HasRoom(stamps, later, window, max)
  {
    if now.boot.Some? {
      FewerLater(stamps, now.boot.value, now.t - window, later.t - window);
    }
  }

  lemma TimeKeepsBudget(cfg: Settings, l: Ledger, later: Reading)
    requires BudgetInv(cfg, l) && l.now.AtMost(later)
    ensures BudgetInv(cfg, l.(now := later))
  {
    SameRecentLater(l.disk, l.charges, l.now, later, cfg.longWindow);
    if l.mem.Some? {
      SameRecentLater(l.mem.value, l.charges, l.now, later, cfg.longWindow);
      if l.due {
        RoomLater(l.mem.value, l.now, later, cfg.longWindow, cfg.maxResetsLong);
        if cfg.shortWindow <= cfg.longWindow {
          RoomLater(l.mem.value, l.now, later, cfg.shortWindow, cfg.maxResetsShort);
        }
      }
    }
  }

  lemma PruningKeepsBudget(cfg: Settings, l: Ledger)
    requires BudgetInv(cfg, l)
    ensures BudgetInv(cfg, l.(mem := Some(Recent(l.disk, l.now, cfg.longWindow)), due := false))
  {
    OnlyFromRecent(l.disk, l.now, cfg.longWindow, l.boots);
    if l.now.boot.Some? {
      SelectOfRecent(l.disk, l.now, cfg.longWindow);
    }
  }

  /** What decide checks leaves room for one more charge. */
  lemma AllowedLeavesRoom(cfg: Settings, s: Saved, now: Reading)
    requires ResetAllowed(s, now, cfg)
    ensures HasRoom(s.resets, now, cfg.longWindow, cfg.maxResetsLong)
    ensures HasRoom(s.resets, now, cfg.shortWindow, cfg.maxResetsShort)
  {
    if now.boot.Some? {
      SelectOfRecent(s.resets, now, cfg.longWindow);
      SelectOfRecent(s.resets, now, cfg.shortWindow);
    }
  }

  /** One more charge where there is room for it stays within the budget. */
  lemma ChargeFits(charges: seq<Stamp>, now: Reading, window: real, max: nat)
    requires Budgeted(charges, window, max) && HasRoom(charges, now, window, max)
    ensures Budgeted(charges + [now.Mark()], window, max)
  {
    forall boot: string, start: real ensures CountIn(charges + [now.Mark()], boot, start, window) <= max {
      AppendCount(charges, now.Mark(), boot, start, window);
      if now.boot == Some(boot) && start <= now.t < start + window {
        CountedAreSelected(charges, boot, start, window, now.t - window);
      }
    }
  }

  /** Room in the pruned list is room in the whole history, for any window up to the pruning one. */
  lemma RoomInHistory(kept: seq<Stamp>, charges: seq<Stamp>, now: Reading, window: real, asked: real, max: nat)
    requires SameRecent(kept, charges, now, window) && asked <= window && HasRoom(kept, now, asked, max)
    ensures HasRoom(charges, now, asked, max)
  {
    if now.boot.Some? {
      SelectOfSelect(kept, now.boot.value, now.t - window, now.t - asked);
      SelectOfSelect(charges, now.boot.value, now.t - window, now.t - asked);
    }
  }

  lemma SameRecentGrows(kept: seq<Stamp>, charges: seq<Stamp>, now: Reading, window: real)
    requires SameRecent(kept, charges, now, window)
    ensures SameRecent(kept + [now.Mark()], charges + [now.Mark()], now, window)
  {
    if now.boot.Some? {
      Append(kept, now.Mark(), now.boot.value, now.t - window);
      Append(charges, now.Mark(), now.boot.value, now.t - window);
    }
  }

  lemma ChargingKeepsBudget(cfg: Settings, l: Ledger)
    requires BudgetInv(cfg, l) && l.due
    ensures var more := l.mem.value + [l.now.Mark()];
            BudgetInv(cfg, l.(charges := l.charges + [l.now.Mark()], disk := more, mem := Some(more), due := false))
  {
    SameRecentGrows(l.mem.value, l.charges, l.now, cfg.longWindow);
    RoomInHistory(l.mem.value, l.charges, l.now, cfg.longWindow, cfg.longWindow, cfg.maxResetsLong);
    ChargeFits(l.charges, l.now, cfg.longWindow, cfg.maxResetsLong);
    if cfg.shortWindow <= cfg.longWindow {
      RoomInHistory(l.mem.value, l.charges, l.now, cfg.longWindow, cfg.shortWindow, cfg.maxResetsShort);
      ChargeFits(l.charges, l.now, cfg.shortWindow, cfg.maxResetsShort);
    }
  }

  lemma RebootKeepsBudget(cfg: Settings, l: Ledger, now: Reading)
    requires BudgetInv(cfg, l) && (now.boot.Some? ==> now.boot.value !in l.boots)
    ensures BudgetInv(cfg, l.(now := now, boots := l.boots + AsSet(now.boot), mem := None, due := false))
  {
    if now.boot.Some? {
      StrangersAreNotSelected(l.disk, l.boots, now.boot.value, now.t - cfg.longWindow);
      StrangersAreNotSelected(l.charges, l.boots, now.boot.value, now.t - cfg.longWindow);
    }
  }

  lemma NoChargesAreBudgeted(cfg: Settings, l: Ledger)
    requires l.charges == [] && l.disk == [] && l.mem.None? && !l.due
    requires l.now.boot.Some? ==> l.now.boot.value in l.boots
    ensures BudgetInv(cfg, l)
  {
  }

  // ---- The machine -----------------------------------------------------------

  lemma LookKeepsBudget(cfg: Settings, m: Machine, unit: Properties, record: Option<Record>)
    requires BudgetInv(cfg, LedgerOf(m)) && Enabled(m, Look(unit, record))
    ensures BudgetInv(cfg, LedgerOf(LookStep(cfg, m, unit, record)))
  {
    PruningKeepsBudget(cfg, LedgerOf(m));
    assert LookStep(cfg, m, unit, record).mem.resets == Recent(m.disk.resets, m.now, cfg.longWindow);
  }

  lemma ChooseKeepsBudget(cfg: Settings, m: Machine)
    requires BudgetInv(cfg, LedgerOf(m)) && m.pc.Choosing?
    ensures BudgetInv(cfg, LedgerOf(ChooseStep(cfg, m)))
  {
    if Decide(m.mem, m.pc.unit, m.pc.record, m.now, cfg).action == Recover {
      AllowedLeavesRoom(cfg, m.mem, m.now);
    }
  }

  /** A command, a poll or a timeout changes nothing here, except that the pass may end. */
  ghost predicate SameLedger(before: Ledger, after: Ledger) {
    after == before || after == before.(mem := None, due := false)
  }

  lemma SameLedgerKeepsBudget(cfg: Settings, before: Ledger, after: Ledger)
    requires BudgetInv(cfg, before) && SameLedger(before, after)
    ensures BudgetInv(cfg, after)
  {
  }

  lemma CommandKeepsLedger(m: Machine, ok: bool)
    requires CommandAt(m.pc).Some?
    ensures SameLedger(LedgerOf(m), LedgerOf(CommandStep(m, ok)))
  {
  }

  lemma PollKeepsLedger(m: Machine, shown: Option<Properties>, record: Option<Record>)
    ensures SameLedger(LedgerOf(m), LedgerOf(PollStep(m, shown, record)))
  {
  }

  lemma TimeOutKeepsLedger(cfg: Settings, m: Machine)
    requires Waits(m.pc)
    ensures SameLedger(LedgerOf(m), LedgerOf(TimeOutStep(cfg, m)))
  {
  }

  lemma SaveKeepsBudget(cfg: Settings, m: Machine)
    requires BudgetInv(cfg, LedgerOf(m)) && m.pc.Saving? && !m.pc.after.Saving?
    ensures BudgetInv(cfg, LedgerOf(Step(cfg, m, Save)))
  {
  }
}
