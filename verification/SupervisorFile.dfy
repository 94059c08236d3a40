/**
 * scripts/bridge_recovery.py, State.to_json and parse_state: the state file as a JSON value.
 *
 * Whatever a run can save loads back unchanged, and whatever the file holds, loading it
 * gives a state that does.
 */
module SupervisorFile {
  import opened Basics
  import opened JsonValues
  import opened SupervisorState
  import opened SupervisorMachine
  import SupervisorRuns

  const STATE_VERSION := 1
  const MAX_TEXT := 64

  datatype Name =
    | VersionName | BleFailuresName | ResetsName | PlainRestartsName
    | PlainRestartStreakName | StartupFailureStreakName | ReadyInstanceName | ReadySinceName
    | StuckCountedName | MqttReconnectsName | RecoveryFailedName | TerminalStopPendingName
    | ReasonName | LastResultName
    | BootName | TName | WallName
    | OtherName(text: string)

  type Document = Json<Name>

  // ---- Stamps -----------------------------------------------------------------

  function StampDict(s: Stamp): Document {
    var boot := if s.boot.Some? then String(s.boot.value) else Null;
    Object(map[BootName := boot, TName := Float(s.t), WallName := Float(s.wall)])
  }

  function StampList(stamps: seq<Stamp>): (items: seq<Document>)
    ensures |items| == |stamps|
  {
    if stamps == [] then [] else StampList(stamps[..|stamps| - 1]) + [StampDict(stamps[|stamps| - 1])]
  }

  /** _is_number: neither a boolean nor negative. */
  predicate IsNumber(v: Document) {
    (v.Int? && v.number >= 0) || (v.Float? && v.amount >= 0.0)
  }

  function Amount(v: Document): (amount: real)
    requires IsNumber(v)
    ensures amount >= 0.0
  {
    if v.Int? then v.number as real else v.amount
  }

  /** _is_stamp. */
  predicate IsStamp(v: Document) {
    && v.Object? && v.fields.Keys == {BootName, TName, WallName}
    && (v.fields[BootName].Null? || v.fields[BootName].String?)
    && IsNumber(v.fields[TName]) && IsNumber(v.fields[WallName])
  }

  function AsStamp(v: Document): (s: Stamp)
    requires IsStamp(v)
    ensures ValidStamp(s)
  {
    Stamp(if v.fields[BootName].Null? then None else Some(v.fields[BootName].text),
          Amount(v.fields[TName]), Amount(v.fields[WallName]))
  }

  predicate AreStamps(items: seq<Document>) {
    forall i :: 0 <= i < |items| ==> IsStamp(items[i])
  }

  predicate IsStampList(v: Document) {
    v.Array? && AreStamps(v.items)
  }

  function AsStamps(items: seq<Document>): (stamps: seq<Stamp>)
    requires AreStamps(items)
    ensures ValidStamps(stamps)
  {
    if items == [] then [] else AsStamps(items[..|items| - 1]) + [AsStamp(items[|items| - 1])]
  }

  lemma StampLoads(s: Stamp)
    requires ValidStamp(s)
    ensures IsStamp(StampDict(s)) && AsStamp(StampDict(s)) == s
  {
  }

  lemma {:induction false} StampsLoad(stamps: seq<Stamp>)
    requires ValidStamps(stamps)
    ensures AreStamps(StampList(stamps)) && AsStamps(StampList(stamps)) == stamps
  {
    if stamps != [] {
      var n := |stamps| - 1;
      StampsLoad(stamps[..n]);
      StampLoads(stamps[n]);
      assert StampList(stamps)[..n] == StampList(stamps[..n]);
    }
  }

  // ---- Strings ------------------------------------------------------------------

  function StringList(texts: seq<string>): (items: seq<Document>)
    ensures |items| == |texts|
    ensures forall i :: 0 <= i < |texts| ==> items[i] == String(texts[i])
  {
    seq(|texts|, i requires 0 <= i < |texts| => String(texts[i]))
  }

  predicate IsInstanceList(v: Document) {
    v.Array? && forall i :: 0 <= i < |v.items| ==> v.items[i].String? && IsInstanceId(v.items[i].text)
  }

  function AsInstances(v: Document): (instances: seq<string>)
    requires IsInstanceList(v)
    ensures forall i :: 0 <= i < |instances| ==> IsInstanceId(instances[i])
    ensures |instances| == |v.items| && forall i :: 0 <= i < |instances| ==> instances[i] == v.items[i].text
  {
    seq(|v.items|, i requires 0 <= i < |v.items| => v.items[i].text)
  }

  function Cut(text: string, most: nat): (cut: string)
    ensures |cut| <= most
    ensures |text| <= most ==> cut == text
  {
    if |text| <= most then text else text[..most]
  }

  // ---- The state ------------------------------------------------------------------

  function StateFields(s: Saved): map<Name, Document> {
    map[VersionName := Int(STATE_VERSION),
        BleFailuresName := Array(StampList(s.bleFailures)),
        ResetsName := Array(StampList(s.resets)),
        PlainRestartsName := Array(StampList(s.plainRestarts)),
        PlainRestartStreakName := Int(s.plainRestartStreak),
        StartupFailureStreakName := Int(s.startupFailureStreak),
        ReadyInstanceName := String(s.readyInstance),
        ReadySinceName := if s.readySince.Some? then StampDict(s.readySince.value) else Null,
        StuckCountedName := Array(StringList(s.stuckCounted)),
        MqttReconnectsName := Int(s.mqttReconnects),
        RecoveryFailedName := Bool(s.recoveryFailed),
        TerminalStopPendingName := Bool(s.terminalStopPending),
        ReasonName := String(s.reason),
        LastResultName := String(s.lastResult)]
  }

  /** State.to_json. */
  function StateDict(s: Saved): Document {
    Object(StateFields(s))
  }

  /** A missing member reads as null. */
  function Get(f: map<Name, Document>, name: Name): Document {
    if name in f then f[name] else Null
  }

  function GetOr(f: map<Name, Document>, name: Name, default: Document): Document {
    if name in f then f[name] else default
  }

  /** What compares equal to the version number in the source's language. */
  predicate IsVersion(v: Document) {
    v == Int(STATE_VERSION) || v == Float(1.0) || v == Bool(true)
  }

  predicate IsCount(v: Document) {
    v.Int? && v.number >= 0
  }

  /** Members older state files did not have read as zero or false. */
  predicate IsState(f: map<Name, Document>) {
    && IsVersion(Get(f, VersionName))
    && IsStampList(Get(f, BleFailuresName)) && IsStampList(Get(f, ResetsName)) && IsStampList(Get(f, PlainRestartsName))
    && Get(f, ReadyInstanceName).String?
    && (Get(f, ReadySinceName).Null? || IsStamp(Get(f, ReadySinceName)))
    && IsInstanceList(Get(f, StuckCountedName))
    && IsCount(Get(f, MqttReconnectsName))
    && IsCount(GetOr(f, PlainRestartStreakName, Int(0))) && IsCount(GetOr(f, StartupFailureStreakName, Int(0)))
    && Get(f, RecoveryFailedName).Bool? && GetOr(f, TerminalStopPendingName, Bool(false)).Bool?
    && Get(f, ReasonName).String? && Get(f, LastResultName).String?
  }

  function AsState(f: map<Name, Document>): Saved
    requires IsState(f)
  {
    Saved(AsStamps(Get(f, BleFailuresName).items), AsStamps(Get(f, ResetsName).items),
          AsStamps(Get(f, PlainRestartsName).items),
          GetOr(f, PlainRestartStreakName, Int(0)).number, GetOr(f, StartupFailureStreakName, Int(0)).number,
          Cut(Get(f, ReadyInstanceName).text, 32),
          if Get(f, ReadySinceName).Null? then None else Some(AsStamp(Get(f, ReadySinceName))),
          LastSeen(AsInstances(Get(f, StuckCountedName))), Get(f, MqttReconnectsName).number,
          Get(f, RecoveryFailedName).flag, GetOr(f, TerminalStopPendingName, Bool(false)).flag,
          Cut(Get(f, ReasonName).text, MAX_TEXT), Cut(Get(f, LastResultName).text, MAX_TEXT))
  }

  const UNREADABLE := NEW_STATE.(recoveryFailed := true, reason := "state_unreadable")

  /** parse_state: anything unexpected fails closed. */
  function ParseState(document: Document): Saved {
    if document.Object? && IsState(document.fields) then AsState(document.fields) else UNREADABLE
  }

  /** What survives a save and a load. */
  predicate Loadable(s: Saved) {
    && ValidStamps(s.bleFailures) && ValidStamps(s.resets) && ValidStamps(s.plainRestarts)
    && |s.readyInstance| <= 32 && (s.readySince.Some? ==> ValidStamp(s.readySince.value))
    && |s.stuckCounted| <= MAX_SEEN_INSTANCES
        && (forall i :: 0 <= i < |s.stuckCounted| ==> IsInstanceId(s.stuckCounted[i]))
    && |s.reason| <= MAX_TEXT && |s.lastResult| <= MAX_TEXT
  }

  /** What an object spells, member by member. */
  predicate Spells(f: map<Name, Document>, s: Saved) {
    SpellsLists(f, s) && SpellsRest(f, s)
  }

  predicate SpellsLists(f: map<Name, Document>, s: Saved) {
    && Get(f, VersionName) == Int(STATE_VERSION)
    && Get(f, BleFailuresName) == Array(StampList(s.bleFailures))
    && Get(f, ResetsName) == Array(StampList(s.resets))
    && Get(f, PlainRestartsName) == Array(StampList(s.plainRestarts))
    && Get(f, ReadySinceName) == (if s.readySince.Some? then StampDict(s.readySince.value) else Null)
    && Get(f, StuckCountedName) == Array(StringList(s.stuckCounted))
  }

  predicate SpellsRest(f: map<Name, Document>, s: Saved) {
    && GetOr(f, PlainRestartStreakName, Int(0)) == Int(s.plainRestartStreak)
    && GetOr(f, StartupFailureStreakName, Int(0)) == Int(s.startupFailureStreak)
    && Get(f, ReadyInstanceName) == String(s.readyInstance)
    && Get(f, MqttReconnectsName) == Int(s.mqttReconnects)
    && Get(f, RecoveryFailedName) == Bool(s.recoveryFailed)
    && GetOr(f, TerminalStopPendingName, Bool(false)) == Bool(s.terminalStopPending)
    && Get(f, ReasonName) == String(s.reason) && Get(f, LastResultName) == String(s.lastResult)
  }

  lemma PrintedListsSpell(s: Saved)
    ensures SpellsLists(StateFields(s), s)
  {
  }

  lemma PrintedRestSpells(s: Saved)
    ensures SpellsRest(StateFields(s), s)
  {
  }

  lemma ListsLoad(s: Saved)
    requires Loadable(s)
    ensures AreStamps(StampList(s.bleFailures)) && AsStamps(StampList(s.bleFailures)) == s.bleFailures
    ensures AreStamps(StampList(s.resets)) && AsStamps(StampList(s.resets)) == s.resets
    ensures AreStamps(StampList(s.plainRestarts)) && AsStamps(StampList(s.plainRestarts)) == s.plainRestarts
    ensures s.readySince.Some? ==>
              IsStamp(StampDict(s.readySince.value)) && AsStamp(StampDict(s.readySince.value)) == s.readySince.value
    ensures IsInstanceList(Array(StringList(s.stuckCounted)))
    ensures AsInstances(Array(StringList(s.stuckCounted))) == s.stuckCounted
  {
    StampsLoad(s.bleFailures);
    StampsLoad(s.resets);
    StampsLoad(s.plainRestarts);
    InstancesLoad(s.stuckCounted);
    if s.readySince.Some? {
      StampLoads(s.readySince.value);
    }
  }

  lemma InstancesLoad(instances: seq<string>)
    requires forall i :: 0 <= i < |instances| ==> IsInstanceId(instances[i])
    ensures IsInstanceList(Array(StringList(instances))) && AsInstances(Array(StringList(instances))) == instances
  {
  }

  lemma SpelledIsState(f: map<Name, Document>, s: Saved)
    requires Loadable(s) && Spells(f, s)
    ensures IsState(f)
  {
    ListsLoad(s);
  }

  lemma SpelledStateLoads(f: map<Name, Document>, s: Saved)
    requires Loadable(s) && Spells(f, s) && IsState(f)
    ensures AsState(f) == s
  {
    ListsLoad(s);
  }

  /** A state within the limits loads back unchanged, and so does the state any document loads as. */
  lemma SavedStateLoads(s: Saved)
    ensures Loadable(s) ==> ParseState(StateDict(s)) == s
    ensures forall document: Document :: ParseState(document) == s ==> Loadable(s)
  {
    if Loadable(s) {
      PrintedListsSpell(s);
      PrintedRestSpells(s);
      SpelledIsState(StateFields(s), s);
      SpelledStateLoads(StateFields(s), s);
    }
    forall document: Document | ParseState(document) == s ensures Loadable(s) {
    }
  }

  // ---- Every reachable state ---------------------------------------------------------

  ghost predicate SizeInv(m: Machine) {
    && Loadable(m.disk) && (m.pc != Idle ==> Loadable(m.mem))
    && ValidReading(m.now) && ValidExits(m.exits)
  }

  lemma {:induction false} RecentIsValid(stamps: seq<Stamp>, now: Reading, window: real)
    requires ValidStamps(stamps)
    ensures ValidStamps(Recent(stamps, now, window))
  {
    if stamps != [] {
      RecentIsValid(stamps[..|stamps| - 1], now, window);
    }
  }

  lemma {:induction false} BleStampsAreValid(exits: seq<Exit>)
    requires ValidExits(exits)
    ensures ValidStamps(BleStamps(exits))
  {
    if exits != [] {
      BleStampsAreValid(exits[..|exits| - 1]);
    }
  }

  lemma PrunedIsLoadable(s: Saved, exits: seq<Exit>, now: Reading, cfg: Settings)
    requires Loadable(s) && ValidExits(exits)
    ensures Loadable(Pruned(s, exits, now, cfg))
  {
    BleStampsAreValid(exits);
    RecentIsValid(s.bleFailures + BleStamps(exits), now, cfg.failureWindow);
    RecentIsValid(s.resets, now, cfg.longWindow);
    RecentIsValid(s.plainRestarts, now, PLAIN_RESTART_WINDOW_SECONDS);
  }

  lemma SeenIsLoadable(s: Saved, r: Record, now: Reading, cfg: Settings)
    requires Loadable(s) && ValidReading(now) && r.Valid()
    ensures Loadable(SeenReady(s, r.instance, now, cfg))
    ensures Loadable(SeenUnready(s, r, now, cfg))
  {
  }

  lemma ObservedIsLoadable(s: Saved, unit: Properties, record: Option<Record>, exits: seq<Exit>, now: Reading,
      cfg: Settings)
    requires Loadable(s) && ValidExits(exits) && ValidReading(now) && ValidRecord(record)
    ensures Loadable(Observed(s, unit, record, exits, now, cfg))
  {
    PrunedIsLoadable(s, exits, now, cfg);
    var trusted := Trusted(record, unit);
    if trusted.Some? {
      var counted := Pruned(s, exits, now, cfg).(mqttReconnects := trusted.value.mqttReconnects);
      SeenIsLoadable(counted, trusted.value, now, cfg);
    }
  }

  lemma ChooseKeepsSizes(cfg: Settings, m: Machine)
    requires SizeInv(m) && m.pc.Choosing?
    ensures SizeInv(ChooseStep(cfg, m))
  {
  }

  lemma CommandKeepsSizes(m: Machine, ok: bool)
    requires SizeInv(m) && CommandAt(m.pc).Some?
    ensures SizeInv(CommandStep(m, ok))
  {
  }

  lemma PollKeepsSizes(m: Machine, shown: Option<Properties>, record: Option<Record>)
    requires SizeInv(m)
    ensures SizeInv(PollStep(m, shown, record))
  {
  }

  lemma TimeOutKeepsSizes(cfg: Settings, m: Machine)
    requires SizeInv(m) && Waits(m.pc)
    ensures SizeInv(TimeOutStep(cfg, m))
  {
  }

  lemma OtherStepsKeepSizes(cfg: Settings, m: Machine, e: Event)
    requires SizeInv(m) && Enabled(m, e) && !(e.Look? || e.Choose? || e.Command? || e.Poll? || e.TimeOut?)
    ensures SizeInv(Step(cfg, m, e))
  {
  }

  lemma StepKeepsSizes(cfg: Settings, m: Machine, e: Event)
    requires SizeInv(m) && Enabled(m, e)
    ensures SizeInv(Step(cfg, m, e))
  {
    match e
    case Look(unit, record) => ObservedIsLoadable(m.disk, unit, record, m.exits, m.now, cfg);
    case Choose => ChooseKeepsSizes(cfg, m);
    case Command(ok) => CommandKeepsSizes(m, ok);
    case Poll(shown, record) => PollKeepsSizes(m, shown, record);
    case TimeOut => TimeOutKeepsSizes(cfg, m);
    case _ => OtherStepsKeepSizes(cfg, m, e);
  }

  lemma {:induction false} RunKeepsSizes(cfg: Settings, start: Machine, events: seq<Event>)
    requires SizeInv(start) && Run(cfg, start, events).Some?
    ensures SizeInv(Run(cfg, start, events).value)
  {
    if events != [] {
      var n := |events| - 1;
      RunKeepsSizes(cfg, start, events[..n]);
      StepKeepsSizes(cfg, Run(cfg, start, events[..n]).value, events[n]);
    }
  }

  /** Every state a run can leave in the file is loaded by the next pass unchanged. */
  lemma ReachableStatesLoad(cfg: Settings, events: seq<Event>, m: Machine)
    requires SupervisorRuns.Reaches(cfg, events, m)
    ensures ParseState(StateDict(m.disk)) == m.disk
  {
    var now: Reading, exits: seq<Exit> :|
      Run(cfg, Installed(now, exits), events) == Some(m) && ValidReading(now) && ValidExits(exits);
    RunKeepsSizes(cfg, Installed(now, exits), events);
    SavedStateLoads(m.disk);
  }

  /** A file that is not a state latches: no decision made on what it loads as recovers or restarts anything. */
  lemma CorruptFilesFailClosed(document: Document, unit: Properties, record: Option<Record>, now: Reading,
      cfg: Settings)
    requires !(document.Object? && IsState(document.fields))
    ensures var d := Decide(ParseState(document), unit, record, now, cfg);
            d.action == Nothing && ParseState(document).recoveryFailed
  {
  }
}
