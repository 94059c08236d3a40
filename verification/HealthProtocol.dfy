/**
 * health_protocol.py: the status and reply messages shared by the bridge and Home Assistant.
 *
 * The parsers are proved to accept exactly the documents the printers write for valid
 * values, so a message that parses is never a partially trusted one.
 */
module HealthProtocol {
  import opened Basics
  import opened JsonValues

  const PROTOCOL_VERSION := 1
  const PHASE_STARTING := "starting"
  const PHASE_DISCOVERING := "discovering"
  const PHASE_CONNECTING := "connecting"
  const PHASE_READY := "ready"
  const PHASE_DEGRADED := "degraded"
  const PHASE_OFFLINE := "offline"
  const PHASES := {PHASE_STARTING, PHASE_DISCOVERING, PHASE_CONNECTING, PHASE_READY, PHASE_DEGRADED, PHASE_OFFLINE}
  const LINK_CONNECTED := "connected"
  const LINK_DISCONNECTED := "disconnected"
  const LINK_UNKNOWN := "unknown"
  const LINK_STATES := {LINK_CONNECTED, LINK_DISCONNECTED, LINK_UNKNOWN}
  const ERROR_NONE := "none"
  const ERROR_SNAPSHOT_PUBLISH_FAILED := "snapshot_publish_failed"
  const ERROR_STATE_PUBLISH_FAILED := "state_publish_failed"
  const ERROR_CONNECTION_LOST := "connection_lost"
  const ERROR_CATEGORIES := {
    ERROR_NONE, "ble_disconnected", "ble_discovery_in_progress", "ble_discovery_failed",
    "ble_connect_failed", "network_not_found", "configuration", "mqtt_error",
    ERROR_SNAPSHOT_PUBLISH_FAILED, ERROR_STATE_PUBLISH_FAILED, ERROR_CONNECTION_LOST,
    "shutdown", "unknown"}
  const REPLY_STATUS := "status"
  const REPLY_SNAPSHOT := "snapshot"
  const REPLY_TYPES := {REPLY_STATUS, REPLY_SNAPSHOT}
  const RESULT_OK := "ok"
  const RESULT_FAILED := "failed"
  const RESULT_RATE_LIMITED := "rate_limited"
  const RESULT_BUSY := "busy"
  const RESULTS := {RESULT_OK, RESULT_FAILED, RESULT_RATE_LIMITED, RESULT_BUSY}
  const MAX_COUNTER := 0x1F_FFFF_FFFF_FFFF

  datatype Name =
    | ProtocolVersionName | InstanceIdName | SequenceName | PhaseName | BleName | MqttName
    | UptimeSName | SnapshotName | ErrorName | TimeName
    | GenerationName | UnitsName | ScenesName | FailedName | AgeSName
    | TypeName | RequestIdName | ResultName | StatusName
    | OtherName(text: string)

  type Document = Json<Name>

  const STATUS_KEYS := {
    ProtocolVersionName, InstanceIdName, SequenceName, PhaseName, BleName, MqttName,
    UptimeSName, SnapshotName, ErrorName, TimeName}
  const SNAPSHOT_KEYS := {GenerationName, UnitsName, ScenesName, FailedName, AgeSName}
  const REPLY_KEYS := {ProtocolVersionName, TypeName, RequestIdName, InstanceIdName, ResultName, StatusName}
  const SNAPSHOT_REPLY_KEYS := REPLY_KEYS + {UnitsName, ScenesName, FailedName, GenerationName}

  // ---- Values -------------------------------------------------------------

  datatype SnapshotSummary = SnapshotSummary(generation: int, units: int, scenes: int, failed: int, ageS: Option<int>)

  datatype BridgeStatus = BridgeStatus(
    instanceId: string, sequence: Option<int>, phase: string, ble: string, mqtt: string,
    uptimeS: Option<int>, snapshot: SnapshotSummary, error: string, time: Option<string>,
    protocolVersion: int)

  /** The four counters are present in snapshot replies only. */
  datatype ReplyCounters = ReplyCounters(units: nat, scenes: nat, failed: nat, generation: nat)

  datatype HealthReply = HealthReply(
    kind: string, requestId: string, instanceId: string, result: string, status: BridgeStatus,
    counters: Option<ReplyCounters>)

  predicate CounterInRange(n: int) {
    0 <= n <= MAX_COUNTER
  }

  predicate OptionalCounterInRange(n: Option<int>) {
    n.Some? ==> CounterInRange(n.value)
  }

  predicate IsRequestIdChar(c: char) {
    'A' <= c <= 'Z' || 'a' <= c <= 'z' || '0' <= c <= '9' || c in "._:-"
  }

  predicate ValidRequestId(s: string) {
    1 <= |s| <= 64 && forall i :: 0 <= i < |s| ==> IsRequestIdChar(s[i])
  }

  predicate IsLowerHex(c: char) {
    '0' <= c <= '9' || 'a' <= c <= 'f'
  }

  predicate ValidInstanceId(s: string) {
    |s| == 32 && forall i :: 0 <= i < |s| ==> IsLowerHex(s[i])
  }

  predicate ValidSnapshot(s: SnapshotSummary) {
    && CounterInRange(s.generation) && CounterInRange(s.units)
    && CounterInRange(s.scenes) && CounterInRange(s.failed)
    && OptionalCounterInRange(s.ageS)
  }

  /** Only the last will, which is offline, may omit its sequence. */
  predicate ValidStatus(s: BridgeStatus) {
    && s.protocolVersion == PROTOCOL_VERSION
    && ValidInstanceId(s.instanceId)
    && OptionalCounterInRange(s.sequence)
    && s.phase in PHASES && s.ble in LINK_STATES && s.mqtt in LINK_STATES
    && OptionalCounterInRange(s.uptimeS)
    && ValidSnapshot(s.snapshot)
    && s.error in ERROR_CATEGORIES
    && (s.time.Some? ==> |s.time.value| <= 40)
    && (s.sequence.None? ==> s.phase == PHASE_OFFLINE)
  }

  predicate ValidReply(r: HealthReply) {
    && r.kind in REPLY_TYPES
    && ValidRequestId(r.requestId)
    && ValidInstanceId(r.instanceId) && r.instanceId == r.status.instanceId
    && r.result in RESULTS
    && ValidStatus(r.status)
    && (r.counters.Some? <==> r.kind == REPLY_SNAPSHOT)
    && (r.counters.Some? ==>
          && CounterInRange(r.counters.value.units) && CounterInRange(r.counters.value.scenes)
          && CounterInRange(r.counters.value.failed) && CounterInRange(r.counters.value.generation))
  }

  // ---- Printers -----------------------------------------------------------

  function OptionalInt(n: Option<int>): Document {
    match n case Some(v) => Int(v) case None => Null
  }

  function OptionalString(s: Option<string>): Document {
    match s case Some(v) => String(v) case None => Null
  }

  function SnapshotDict(s: SnapshotSummary): Document {
    Object(map[GenerationName := Int(s.generation), UnitsName := Int(s.units), ScenesName := Int(s.scenes),
               FailedName := Int(s.failed), AgeSName := OptionalInt(s.ageS)])
  }

  function StatusDict(s: BridgeStatus): Document {
    Object(map[ProtocolVersionName := Int(s.protocolVersion), InstanceIdName := String(s.instanceId),
               SequenceName := OptionalInt(s.sequence), PhaseName := String(s.phase), BleName := String(s.ble),
               MqttName := String(s.mqtt), UptimeSName := OptionalInt(s.uptimeS),
               SnapshotName := SnapshotDict(s.snapshot), ErrorName := String(s.error),
                   TimeName := OptionalString(s.time)])
  }

  function ReplyDict(r: HealthReply): Document {
    var common: map<Name, Document> := map[
      ProtocolVersionName := Int(PROTOCOL_VERSION), TypeName := String(r.kind),
      RequestIdName := String(r.requestId), InstanceIdName := String(r.instanceId),
      ResultName := String(r.result), StatusName := StatusDict(r.status)];
    match r.counters
    case None => Object(common)
    case Some(c) =>
      Object(common[UnitsName := Int(c.units)][ScenesName := Int(c.scenes)]
             [FailedName := Int(c.failed)][GenerationName := Int(c.generation)])
  }

  // ---- Parsers ------------------------------------------------------------

  predicate IsCounter(value: Document) {
    value.Int? && 0 <= value.number <= MAX_COUNTER
  }

  predicate IsOptionalCounter(value: Document) {
    value.Null? || IsCounter(value)
  }

  predicate IsMember(value: Document, allowed: set<string>) {
    value.String? && value.text in allowed
  }

  predicate IsVersionOne(value: Document) {
    value.Int? && value.number == PROTOCOL_VERSION
  }

  function AsOptionalInt(value: Document): Option<int>
    requires IsOptionalCounter(value)
  {
    if value.Null? then None else Some(value.number)
  }

  /** _parse_snapshot. */
  function ParseSnapshot(value: Document): (summary: Option<SnapshotSummary>) {
    if !value.Object? || value.fields.Keys != SNAPSHOT_KEYS then None
    else
      var f := value.fields;
      if !(IsCounter(f[GenerationName]) && IsCounter(f[UnitsName]) && IsCounter(f[ScenesName])
          && IsCounter(f[FailedName])) then None
      else if !IsOptionalCounter(f[AgeSName]) then None
      else Some(SnapshotSummary(f[GenerationName].number, f[UnitsName].number, f[ScenesName].number,
          f[FailedName].number,
                                AsOptionalInt(f[AgeSName])))
  }

  /** protocol_version_of: what a payload says of its version, whatever else it holds. */
  function ProtocolVersionOf(payload: Document): (version: Option<int>) {
    if payload.Object? && ProtocolVersionName in payload.fields && IsCounter(payload.fields[ProtocolVersionName])
    then Some(payload.fields[ProtocolVersionName].number)
    else None
  }

  /** Every check _status_from_dict makes on the members of an exact status object. */
  predicate StatusMembersValid(f: map<Name, Document>)
    requires f.Keys == STATUS_KEYS
  {
    && IsVersionOne(f[ProtocolVersionName])
    && f[InstanceIdName].String? && ValidInstanceId(f[InstanceIdName].text)
    && IsOptionalCounter(f[SequenceName])
    && IsMember(f[PhaseName], PHASES)
    && IsMember(f[BleName], LINK_STATES)
    && IsMember(f[MqttName], LINK_STATES)
    && IsOptionalCounter(f[UptimeSName])
    && ParseSnapshot(f[SnapshotName]).Some?
    && IsMember(f[ErrorName], ERROR_CATEGORIES)
    && (f[TimeName].Null? || (f[TimeName].String? && |f[TimeName].text| <= 40))
    && (f[SequenceName].Null? ==> f[PhaseName].text == PHASE_OFFLINE)
  }

  /** _status_from_dict. */
  function StatusFromDict(value: Document): (status: Option<BridgeStatus>) {
    if !value.Object? || value.fields.Keys != STATUS_KEYS || !StatusMembersValid(value.fields) then None
    else
      var f := value.fields;
      Some(BridgeStatus(
        f[InstanceIdName].text, AsOptionalInt(f[SequenceName]), f[PhaseName].text, f[BleName].text,
        f[MqttName].text, AsOptionalInt(f[UptimeSName]), ParseSnapshot(f[SnapshotName]).value, f[ErrorName].text,
        if f[TimeName].Null? then None else Some(f[TimeName].text), PROTOCOL_VERSION))
  }

  /** Every check parse_reply makes on the members of an object with the exact reply keys. */
  predicate ReplyMembersValid(f: map<Name, Document>)
    requires f.Keys == REPLY_KEYS || f.Keys == SNAPSHOT_REPLY_KEYS
  {
    && IsMember(f[TypeName], REPLY_TYPES)
    && IsVersionOne(f[ProtocolVersionName])
    && StatusFromDict(f[StatusName]).Some?
    && f[RequestIdName].String? && ValidRequestId(f[RequestIdName].text)
    && f[InstanceIdName].String? && ValidInstanceId(f[InstanceIdName].text)
    && f[InstanceIdName].text == StatusFromDict(f[StatusName]).value.instanceId
    && IsMember(f[ResultName], RESULTS)
  }

  predicate ReplyCountersValid(f: map<Name, Document>)
    requires f.Keys == SNAPSHOT_REPLY_KEYS
  {
    IsCounter(f[UnitsName]) && IsCounter(f[ScenesName]) && IsCounter(f[FailedName]) && IsCounter(f[GenerationName])
  }

  predicate IsSnapshotReply(f: map<Name, Document>) {
    TypeName in f && f[TypeName] == String(REPLY_SNAPSHOT)
  }

  /** parse_reply. */
  function ParseReply(value: Document): (reply: Option<HealthReply>) {
    if !value.Object? then None
    else
      var f := value.fields;
      var isSnapshot := IsSnapshotReply(f);
      if f.Keys != (if isSnapshot then SNAPSHOT_REPLY_KEYS else REPLY_KEYS) || !ReplyMembersValid(f) then None
      else if isSnapshot && !ReplyCountersValid(f) then None
      else Some(HealthReply(
        f[TypeName].text, f[RequestIdName].text, f[InstanceIdName].text, f[ResultName].text,
        StatusFromDict(f[StatusName]).value,
        if isSnapshot then
          Some(ReplyCounters(f[UnitsName].number, f[ScenesName].number, f[FailedName].number, f[GenerationName].number))
        else None))
  }

  // ---- Exactness ----------------------------------------------------------

  /** The members a snapshot object has when it spells `s`. */
  predicate SpellsSnapshot(value: Document, s: SnapshotSummary) {
    && value.Object? && value.fields.Keys == SNAPSHOT_KEYS
    && var f := value.fields;
       && f[GenerationName] == Int(s.generation) && f[UnitsName] == Int(s.units) && f[ScenesName] == Int(s.scenes)
       && f[FailedName] == Int(s.failed) && f[AgeSName] == OptionalInt(s.ageS)
  }

  /** A snapshot parses exactly when it is what a valid summary prints, and that spells the summary. */
  lemma SnapshotParsesExactly(value: Document, s: SnapshotSummary)
    ensures ParseSnapshot(value) == Some(s) <==> ValidSnapshot(s) && value == SnapshotDict(s)
    ensures value == SnapshotDict(s) <==> SpellsSnapshot(value, s)
  {
    if SpellsSnapshot(value, s) {
      assert value.fields == SnapshotDict(s).fields;
    }
    if ParseSnapshot(value) == Some(s) {
      assert value.fields == SnapshotDict(s).fields;
    }
  }

  /** The members a status object has when it spells `s`. */
  predicate SpellsStatus(f: map<Name, Document>, s: BridgeStatus) {
    && f.Keys == STATUS_KEYS
    && f[ProtocolVersionName] == Int(s.protocolVersion) && f[InstanceIdName] == String(s.instanceId)
    && f[SequenceName] == OptionalInt(s.sequence) && f[PhaseName] == String(s.phase)
    && f[BleName] == String(s.ble) && f[MqttName] == String(s.mqtt)
    && f[UptimeSName] == OptionalInt(s.uptimeS) && f[SnapshotName] == SnapshotDict(s.snapshot)
    && f[ErrorName] == String(s.error) && f[TimeName] == OptionalString(s.time)
  }

  lemma PrintedStatusSpells(s: BridgeStatus)
    ensures SpellsStatus(StatusDict(s).fields, s)
  {
  }

  lemma SpellsStatusExactly(f: map<Name, Document>, s: BridgeStatus)
    requires SpellsStatus(f, s)
    ensures f == StatusDict(s).fields
  {
    PrintedStatusSpells(s);
    assert f.Keys == StatusDict(s).fields.Keys;
  }

  lemma StatusParseIsValid(value: Document, s: BridgeStatus)
    requires StatusFromDict(value) == Some(s)
    ensures ValidStatus(s) && SpellsStatus(value.fields, s)
  {
    SnapshotParsesExactly(value.fields[SnapshotName], s.snapshot);
  }

  lemma ValidStatusParses(value: Document, s: BridgeStatus)
    requires ValidStatus(s) && value.Object? && SpellsStatus(value.fields, s)
    ensures StatusFromDict(value) == Some(s)
  {
    SnapshotParsesExactly(SnapshotDict(s.snapshot), s.snapshot);
  }

  /** A status document parses to `s` exactly when `s` is valid and prints to that document. */
  lemma StatusParsesExactly(value: Document, s: BridgeStatus)
    ensures StatusFromDict(value) == Some(s) <==> ValidStatus(s) && value == StatusDict(s)
  {
    if StatusFromDict(value) == Some(s) {
      StatusParseIsValid(value, s);
      SpellsStatusExactly(value.fields, s);
    }
    if ValidStatus(s) && value == StatusDict(s) {
      PrintedStatusSpells(s);
      ValidStatusParses(value, s);
    }
  }

  lemma PrintedStatusParses(s: BridgeStatus)
    requires ValidStatus(s)
    ensures StatusFromDict(StatusDict(s)) == Some(s)
  {
    StatusParsesExactly(StatusDict(s), s);
  }

  /** The members a reply object has when it spells `r`. */
  predicate SpellsReply(f: map<Name, Document>, r: HealthReply) {
    && f.Keys == (if r.counters.Some? then SNAPSHOT_REPLY_KEYS else REPLY_KEYS)
    && f[ProtocolVersionName] == Int(PROTOCOL_VERSION) && f[TypeName] == String(r.kind)
    && f[RequestIdName] == String(r.requestId) && f[InstanceIdName] == String(r.instanceId)
    && f[ResultName] == String(r.result) && f[StatusName] == StatusDict(r.status)
    && (r.counters.Some? ==>
          && f[UnitsName] == Int(r.counters.value.units) && f[ScenesName] == Int(r.counters.value.scenes)
          && f[FailedName] == Int(r.counters.value.failed) && f[GenerationName] == Int(r.counters.value.generation))
  }

  lemma PrintedReplySpells(r: HealthReply)
    ensures SpellsReply(ReplyDict(r).fields, r)
  {
  }

  lemma SpellsReplyExactly(f: map<Name, Document>, r: HealthReply)
    requires SpellsReply(f, r)
    ensures f == ReplyDict(r).fields
  {
    PrintedReplySpells(r);
    SpellingIsUnique(f, ReplyDict(r).fields, r);
  }

  lemma SpellingIsUnique(f: map<Name, Document>, g: map<Name, Document>, r: HealthReply)
    requires SpellsReply(f, r) && SpellsReply(g, r)
    ensures f == g
  {
    assert f.Keys == g.Keys;
    assert forall k :: k in REPLY_KEYS ==> f[k] == g[k];
    if r.counters.Some? {
      assert forall k :: k in {UnitsName, ScenesName, FailedName, GenerationName} ==> f[k] == g[k];
    }
  }

  lemma ReplyParseIsValid(value: Document, r: HealthReply)
    requires ParseReply(value) == Some(r)
    ensures ValidReply(r) && SpellsReply(value.fields, r)
  {
    StatusParsesExactly(value.fields[StatusName], r.status);
  }

  lemma ValidReplyParses(value: Document, r: HealthReply)
    requires ValidReply(r) && value.Object? && SpellsReply(value.fields, r)
    ensures ParseReply(value) == Some(r)
  {
    PrintedStatusParses(r.status);
    assert ReplyMembersValid(value.fields) by {
      assert r.status.protocolVersion == PROTOCOL_VERSION;
    }
    if r.counters.Some? {
      assert ReplyCountersValid(value.fields);
    }
  }

  /** A reply document parses to `r` exactly when `r` is valid and prints to that document. */
  lemma ReplyParsesExactly(value: Document, r: HealthReply)
    ensures ParseReply(value) == Some(r) <==> ValidReply(r) && value == ReplyDict(r)
  {
    if ParseReply(value) == Some(r) {
      ReplyParseIsValid(value, r);
      SpellsReplyExactly(value.fields, r);
    }
    if ValidReply(r) && value == ReplyDict(r) {
      PrintedReplySpells(r);
      ValidReplyParses(value, r);
    }
  }
}
