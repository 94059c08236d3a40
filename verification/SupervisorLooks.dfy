/**
 * What the notes of the looks say, read off what was there to be seen: which record is ready,
 * which exits are startup exits or BLE evidence, and which instance has been stuck for ten
 * minutes. In every run each note says exactly that.
 */
module SupervisorLooks {
  import opened Basics
  import opened SupervisorState
  import opened SupervisorMachine
  import opened SupervisorRuns

  // ---- What there was to see ------------------------------------------------

  /**
   * The record is trusted, its instance is still discovering or connecting more than ten minutes
   * after its last update, and it is not among those already counted.
   */
  ghost predicate IsStuck(seen: Glance, counted: seq<string>) {
    && seen.record.Some?
    && var r := seen.record.value;
       && r.alive && seen.unit.mainPid == Some(r.pid)
       && (r.phase == Discovering || r.phase == Connecting)
       && seen.clock.monotonic - r.updated > 600.0
       && r.instance !in counted
  }

  /** The stuck instances that the noted looks counted, of which the last 32 are remembered. */
  ghost function Counted(log: seq<Note>): (instances: seq<string>)
    ensures |instances| <= 32
  {
    if log == [] then []
    else
      var before, last := Counted(log[..|log| - 1]), log[|log| - 1];
      if !last.Sighting? || !IsStuck(last.seen, before) then before
      else if |before| < 32 then before + [last.seen.record.value.instance]
      else before[1..] + [last.seen.record.value.instance]
  }

  /** The exits with status 76, which the bridge uses for a failed BLE startup. */
  ghost function BleExits(exits: seq<Exit>): (stamps: seq<Stamp>) {
    if exits == [] then []
    else
      var last := exits[|exits| - 1];
      BleExits(exits[..|exits| - 1]) + if last.code == Exited && last.status == "76" then [last.stamp] else []
  }

  /** The exits with status 76 or 79, the statuses of any failed startup. */
  ghost function FailedStartups(exits: seq<Exit>): (n: nat) {
    if exits == [] then 0
    else
      var last := exits[|exits| - 1];
      FailedStartups(exits[..|exits| - 1])
      + if last.code == Exited && (last.status == "76" || last.status == "79") then 1 else 0
  }

  /** The reconnects that the latest trusted record reported. */
  ghost function Reconnects(log: seq<Note>): (n: nat) {
    if log == [] then 0
    else
      var last := log[|log| - 1];
      if last.Sighting? && last.seen.record.Some? && last.seen.Trusts(last.seen.record.value.instance)
      then last.seen.record.value.mqttReconnects else Reconnects(log[..|log| - 1])
  }

  /** A look is noted as what it saw, given the notes before it. */
  ghost predicate Honest(cfg: Settings, before: seq<Note>, n: Note) {
    n.Sighting? ==>
      && n.at == n.seen.clock.Mark()
      && (forall i :: n.ready == Some(i) <==> n.seen.SawReady() && n.seen.record.value.instance == i)
      && n.startupExits == FailedStartups(n.seen.exits)
      && n.evidence == BleExits(n.seen.exits)
         + if IsStuck(n.seen, Counted(before)) then seq(cfg.failuresToReset, _ => n.at) else []
  }

  lemma HonestAboutReady(cfg: Settings, before: seq<Note>, n: Note)
    requires n.Sighting? && Honest(cfg, before, n)
    ensures n.ready.Some? <==> n.seen.SawReady()
  {
    if n.seen.SawReady() {
      assert n.ready == Some(n.seen.record.value.instance);
    }
  }

  ghost predicate AllHonest(cfg: Settings, log: seq<Note>) {
    forall k :: 0 <= k < |log| ==> Honest(cfg, log[..k], log[k])
  }

  /** What the latest look saw. */
  ghost function LatestLook(log: seq<Note>): (seen: Option<Glance>) {
    if log == [] then None
    else
      var last := log[|log| - 1];
      if last.Sighting? then Some(last.seen) else LatestLook(log[..|log| - 1])
  }

  // ---- One observation --------------------------------------------------------

  lemma {:induction false} ExitsAreCounted(exits: seq<Exit>)
    ensures BleStamps(exits) == BleExits(exits) && StartupExits(exits) == FailedStartups(exits)
  {
    if exits != [] {
      ExitsAreCounted(exits[..|exits| - 1]);
    }
  }

  /**
   * An observation adds evidence besides the exits 76 exactly if the trusted record has been
   * discovering or connecting, without an update, for more than 600 s, and its instance is not
   * among those counted; it then counts the instance, and as often as a reset takes.
   */
  lemma StuckExactly(s: Saved, unit: Properties, record: Option<Record>, exits: seq<Exit>, now: Reading, cfg: Settings)
    requires cfg.failuresToReset > 0 && ValidRecord(record)
    ensures var stuck :=
              && record.Some? && record.value.alive && unit.mainPid == Some(record.value.pid)
              && (record.value.phase == Discovering || record.value.phase == Connecting)
              && now.monotonic - record.value.updated > 600.0
              && record.value.instance !in s.stuckCounted;
            var after := Observed(s, unit, record, exits, now, cfg);
            && (NewEvidence(s, unit, record, exits, now, cfg) != BleExits(exits) <==> stuck)
            && (after.stuckCounted != s.stuckCounted ==> stuck)
            && (stuck ==>
                  && NewEvidence(s, unit, record, exits, now, cfg)
                     == BleExits(exits) + seq(cfg.failuresToReset, _ => Stamp(now.boot, now.t, now.wall))
                  && after.bleFailures == Recent(s.bleFailures + BleExits(exits), now, cfg.failureWindow)
                                          + seq(cfg.failuresToReset, _ => Stamp(now.boot, now.t, now.wall))
                  && after.stuckCounted == LastSeen(s.stuckCounted + [record.value.instance]))
  {
    ExitsAreCounted(exits);
    assert BleStamps(exits) + [] == BleStamps(exits);
    var copies := seq(cfg.failuresToReset, _ => now.Mark());
    assert |BleStamps(exits) + copies| > |BleStamps(exits)|;
  }

  lemma CountedGrows(log: seq<Note>, n: Note)
    ensures Counted(log + [n]) ==
              if !n.Sighting? || !IsStuck(n.seen, Counted(log)) then Counted(log)
              else LastSeen(Counted(log) + [n.seen.record.value.instance])
    ensures LatestLook(log + [n]) == if n.Sighting? then Some(n.seen) else LatestLook(log)
    ensures !n.Sighting? ==> Reconnects(log + [n]) == Reconnects(log)
  {
    assert (log + [n])[..|log|] == log;
    if n.Sighting? && IsStuck(n.seen, Counted(log)) && |Counted(log)| == 32 {
      var more := Counted(log) + [n.seen.record.value.instance];
      assert more[1..] == Counted(log)[1..] + [n.seen.record.value.instance];
    }
  }

  lemma HonestBefore(cfg: Settings, log: seq<Note>, n: nat)
    requires AllHonest(cfg, log) && n <= |log|
    ensures AllHonest(cfg, log[..n])
  {
    assert forall k :: 0 <= k < n ==> log[..n][..k] == log[..k];
  }

  lemma HonestyGrows(cfg: Settings, log: seq<Note>, n: Note)
    requires AllHonest(cfg, log) && Honest(cfg, log, n)
    ensures AllHonest(cfg, log + [n])
  {
    var more := log + [n];
    forall k | 0 <= k < |more| ensures Honest(cfg, more[..k], more[k]) {
      assert k < |log| ==> more[..k] == log[..k] && more[k] == log[k];
      assert more[..|log|] == log;
    }
  }

  /** The sighting an observation notes is honest, and the state counts the stuck instances the notes count. */
  lemma SightingIsHonest(cfg: Settings, log: seq<Note>, s: Saved, unit: Properties, record: Option<Record>,
      exits: seq<Exit>, now: Reading)
    requires s.stuckCounted == Counted(log) && s.mqttReconnects == Reconnects(log) && ValidRecord(record)
    ensures Honest(cfg, log, SightingOf(s, unit, record, exits, now, cfg))
    ensures Observed(s, unit, record, exits, now, cfg).stuckCounted
            == Counted(log + [SightingOf(s, unit, record, exits, now, cfg)])
    ensures Observed(s, unit, record, exits, now, cfg).mqttReconnects
            == Reconnects(log + [SightingOf(s, unit, record, exits, now, cfg)])
  {
    var n := SightingOf(s, unit, record, exits, now, cfg);
    assert (log + [n])[..|log|] == log;
    ExitsAreCounted(exits);
    CountedGrows(log, n);
    assert IsStuck(n.seen, s.stuckCounted) <==>
           Trusted(record, unit).Some? && CountsAsStuck(s, Trusted(record, unit).value, now);
  }

  // ---- Every run --------------------------------------------------------------

  /** These notes are honest, and a state remembers the stuck instances they count. */
  ghost predicate Remembered(cfg: Settings, log: seq<Note>, s: Saved) {
    AllHonest(cfg, log) && s.stuckCounted == Counted(log) && s.mqttReconnects == Reconnects(log)
  }

  ghost predicate LooksInv(cfg: Settings, m: Machine) {
    && Remembered(cfg, m.h.log, m.disk)
    && (m.pc != Idle ==>
          && Remembered(cfg, m.h.log + m.h.unsaved, m.mem)
          && LatestLook(m.h.log + m.h.unsaved) == Some(m.h.seen))
  }

  lemma LookIsHonest(cfg: Settings, m: Machine, unit: Properties, record: Option<Record>)
    requires LooksInv(cfg, m) && ValidRecord(record)
    ensures LooksInv(cfg, LookStep(cfg, m, unit, record))
  {
    var n := SightingOf(m.disk, unit, record, m.exits, m.now, cfg);
    SightingIsHonest(cfg, m.h.log, m.disk, unit, record, m.exits, m.now);
    HonestyGrows(cfg, m.h.log, n);
    CountedGrows(m.h.log, n);
  }

  /** A step within a pass that notes nothing, or something other than a look. */
  lemma ActingIsHonest(cfg: Settings, m: Machine, n: Machine)
    requires LooksInv(cfg, m) && m.pc != Idle
    requires n.disk == m.disk && n.h.log == m.h.log && n.h.seen == m.h.seen
    requires n.mem.stuckCounted == m.mem.stuckCounted && n.mem.mqttReconnects == m.mem.mqttReconnects
    requires n.h.unsaved == m.h.unsaved
             || (|n.h.unsaved| == |m.h.unsaved| + 1 && n.h.unsaved[..|m.h.unsaved|] == m.h.unsaved
                 && !n.h.unsaved[|m.h.unsaved|].Sighting?)
    ensures LooksInv(cfg, n)
  {
    if n.h.unsaved != m.h.unsaved {
      var note := n.h.unsaved[|m.h.unsaved|];
      assert n.h.log + n.h.unsaved == (m.h.log + m.h.unsaved) + [note];
      HonestyGrows(cfg, m.h.log + m.h.unsaved, note);
      CountedGrows(m.h.log + m.h.unsaved, note);
    }
  }

  lemma ChooseIsHonest(cfg: Settings, m: Machine)
    requires LooksInv(cfg, m) && m.pc.Choosing?
    ensures LooksInv(cfg, ChooseStep(cfg, m))
  {
    ActingIsHonest(cfg, m, ChooseStep(cfg, m));
  }

  lemma CommandIsHonest(cfg: Settings, m: Machine, ok: bool)
    requires LooksInv(cfg, m) && CommandAt(m.pc).Some?
    ensures LooksInv(cfg, CommandStep(m, ok))
  {
    ActingIsHonest(cfg, m, CommandStep(m, ok));
  }

  lemma PollIsHonest(cfg: Settings, m: Machine, shown: Option<Properties>, record: Option<Record>)
    requires LooksInv(cfg, m) && m.pc != Idle
    ensures LooksInv(cfg, PollStep(m, shown, record))
  {
    ActingIsHonest(cfg, m, PollStep(m, shown, record));
  }

  lemma TimeOutIsHonest(cfg: Settings, m: Machine)
    requires LooksInv(cfg, m) && Waits(m.pc)
    ensures LooksInv(cfg, TimeOutStep(cfg, m))
  {
    TimeOutKeepsFiles(cfg, m);
    ActingIsHonest(cfg, m, TimeOutStep(cfg, m));
  }

  lemma CrashIsHonest(cfg: Settings, m: Machine)
    requires LooksInv(cfg, m)
    ensures LooksInv(cfg, CrashStep(m))
  {
    HonestyGrows(cfg, m.h.log, CutShort);
    CountedGrows(m.h.log, CutShort);
    assert m.h.log + [] == m.h.log;
  }

  lemma SavingIsHonest(cfg: Settings, m: Machine, e: Event)
    requires LooksInv(cfg, m) && Enabled(m, e) && (e.Save? || e.Charge?)
    ensures LooksInv(cfg, Step(cfg, m, e))
  {
    assert (m.h.log + m.h.unsaved) + [] == m.h.log + m.h.unsaved;
  }

  lemma StepIsHonest(cfg: Settings, m: Machine, e: Event)
    requires LooksInv(cfg, m) && Enabled(m, e)
    ensures LooksInv(cfg, Step(cfg, m, e))
  {
    match e
    case Look(unit, record) => LookIsHonest(cfg, m, unit, record);
    case Choose => ChooseIsHonest(cfg, m);
    case Command(ok) => CommandIsHonest(cfg, m, ok);
    case Poll(shown, record) => PollIsHonest(cfg, m, shown, record);
    case TimeOut => TimeOutIsHonest(cfg, m);
    case Crash => CrashIsHonest(cfg, m);
    case Reboot(_) => CrashIsHonest(cfg, m);
    case Save => SavingIsHonest(cfg, m, e);
    case Charge => SavingIsHonest(cfg, m, e);
    case _ =>
  }

  lemma {:induction false} RunIsHonest(cfg: Settings, start: Machine, events: seq<Event>)
    requires LooksInv(cfg, start) && Run(cfg, start, events).Some?
    ensures LooksInv(cfg, Run(cfg, start, events).value)
  {
    if events != [] {
      var n := |events| - 1;
      RunIsHonest(cfg, start, events[..n]);
      StepIsHonest(cfg, Run(cfg, start, events[..n]).value, events[n]);
    }
  }

  /** In every reachable state every look is noted as what it saw, the one under way included. */
  lemma NotesAreHonest(cfg: Settings, events: seq<Event>, m: Machine)
    requires Reaches(cfg, events, m)
    ensures AllHonest(cfg, m.h.log) && m.disk.stuckCounted == Counted(m.h.log)
    ensures m.disk.mqttReconnects == Reconnects(m.h.log)
    ensures m.pc != Idle ==>
              AllHonest(cfg, m.h.log + m.h.unsaved) && LatestLook(m.h.log + m.h.unsaved) == Some(m.h.seen)
  {
    var now: Reading, exits: seq<Exit> :|
      Run(cfg, Installed(now, exits), events) == Some(m) && ValidReading(now) && ValidExits(exits);
    RunIsHonest(cfg, Installed(now, exits), events);
  }
}
