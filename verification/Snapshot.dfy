/**
 * server.py, publish_snapshot: one retained publish at a time, counted only when the broker
 * confirmed it; and the topics that keep addressless units apart.
 */
module Snapshot {
  import opened Basics
  import opened HealthProtocol
  import BridgeHealth
  import HealthObserver

  // ---- Topics -------------------------------------------------------------

  /** The bytes percent-encoding leaves alone: letters, digits, '_', '.', '-' and '~'. */
  predicate IsUnreserved(b: Byte) {
    var code: int := b;
    48 <= code <= 57 || 65 <= code <= 90 || 97 <= code <= 122 || code == 95 || code == 46 || code == 45 || code == 126
  }

  function HexDigit(n: nat): (c: char)
    requires n < 16
  {
    "0123456789ABCDEF"[n]
  }

  function QuoteByte(b: Byte): string {
    if IsUnreserved(b) then [b as char] else ['%', HexDigit(b / 16), HexDigit(b % 16)]
  }

  /** quote(text, safe='') on the UTF-8 bytes of the text. */
  function Quote(text: seq<Byte>): string {
    if text == [] then "" else QuoteByte(text[0]) + Quote(text[1..])
  }

  lemma HexDigitIsInjective(m: nat, n: nat)
    requires m < 16 && n < 16 && HexDigit(m) == HexDigit(n)
    ensures m == n
  {
    var digits := "0123456789ABCDEF";
    assert forall i :: 0 <= i < 10 ==> digits[i] == (48 + i) as char;
    assert forall i :: 10 <= i < 16 ==> digits[i] == (55 + i) as char;
  }

  /** Two encodings that agree on their first characters encode the same first byte. */
  lemma QuoteByteIsPrefixCode(a: Byte, b: Byte, s: string, t: string)
    requires QuoteByte(a) + s == QuoteByte(b) + t
    ensures a == b && s == t
  {
    var left, right := QuoteByte(a) + s, QuoteByte(b) + t;
    assert left[0] == QuoteByte(a)[0] && right[0] == QuoteByte(b)[0];
    if !IsUnreserved(a) && !IsUnreserved(b) {
      assert left[1] == HexDigit(a / 16) && right[1] == HexDigit(b / 16);
      assert left[2] == HexDigit(a % 16) && right[2] == HexDigit(b % 16);
      HexDigitIsInjective(a / 16, b / 16);
      HexDigitIsInjective(a % 16, b % 16);
    }
    assert s == left[|QuoteByte(a)|..] && t == right[|QuoteByte(b)|..];
  }

  /** Percent-encoding (section 2.1 of RFC 3986) never maps two texts to one. */
  lemma {:induction false} QuoteIsInjective(a: seq<Byte>, b: seq<Byte>)
    requires Quote(a) == Quote(b)
    ensures a == b
  {
    if a != [] && b != [] {
      QuoteByteIsPrefixCode(a[0], b[0], Quote(a[1..]), Quote(b[1..]));
      QuoteIsInjective(a[1..], b[1..]);
    }
  }

  /** What the bridge knows of a unit: an empty address means the unit has none. */
  datatype CasaUnit = CasaUnit(address: string, uuid: Option<seq<Byte>>)

  predicate Addressless(u: CasaUnit) {
    u.address == ""
  }

  /** unit_event_topic: no topic for an addressless unit without a usable UUID. */
  function UnitEventTopic(base: string, u: CasaUnit): (topic: Option<string>) {
    if !Addressless(u) then Some(base + "/events/" + u.address)
    else if u.uuid.None? || u.uuid.value == [] then None
    else Some(base + "/events/uuid/" + Quote(u.uuid.value))
  }

  lemma AddresslessTopicsAreInjective(base: string, u: CasaUnit, v: CasaUnit)
    requires Addressless(u) && Addressless(v)
    requires UnitEventTopic(base, u).Some? && UnitEventTopic(base, u) == UnitEventTopic(base, v)
    ensures u.uuid == v.uuid
  {
    var prefix := base + "/events/uuid/";
    assert prefix + Quote(u.uuid.value) == prefix + Quote(v.uuid.value);
    assert (prefix + Quote(u.uuid.value))[|prefix|..] == Quote(u.uuid.value);
    assert (prefix + Quote(v.uuid.value))[|prefix|..] == Quote(v.uuid.value);
    QuoteIsInjective(u.uuid.value, v.uuid.value);
  }

  // ---- Uniqueness ---------------------------------------------------------

  /** How many addressless units carry this UUID. */
  function UuidCount(units: seq<CasaUnit>, uuid: seq<Byte>): nat {
    if units == [] then 0
    else
      var last := units[|units| - 1];
      UuidCount(units[..|units| - 1], uuid) + if Addressless(last) && last.uuid == Some(uuid) then 1 else 0
  }

  /** addressless_unit_uuid_is_unique, by counting over all candidates. */
  predicate IsUnique(units: seq<CasaUnit>, u: CasaUnit) {
    Addressless(u) && u.uuid.Some? && UuidCount(units, u.uuid.value) == 1
  }

  /** The counting table agrees with counting over all candidates, for every UUID. */
  ghost predicate Tabulates(counts: map<seq<Byte>, nat>, units: seq<CasaUnit>) {
    forall uuid :: UuidCount(units, uuid) == if uuid in counts then counts[uuid] else 0
  }

  /** The counting loop of publish_snapshot. */
  method CountUuids(units: seq<CasaUnit>) returns (counts: map<seq<Byte>, nat>)
    ensures Tabulates(counts, units)
    ensures forall u :: Addressless(u) && u.uuid.Some? ==>
              (IsUnique(units, u) <==> u.uuid.value in counts && counts[u.uuid.value] == 1)
  {
    counts := map[];
    for i := 0 to |units|
      invariant Tabulates(counts, units[..i])
    {
      assert units[..i + 1][..i] == units[..i];
      var unit := units[i];
      if unit.address == "" && unit.uuid.Some? {
        var uuid := unit.uuid.value;
        counts := counts[uuid := (if uuid in counts then counts[uuid] else 0) + 1];
      }
    }
    assert units[..|units|] == units;
  }

  /** Two positions holding one UUID make it count twice. */
  lemma {:induction false} TwiceCountsTwo(units: seq<CasaUnit>, i: nat, j: nat)
    requires i < j < |units| && Addressless(units[i]) && Addressless(units[j])
    requires units[i].uuid.Some? && units[i].uuid == units[j].uuid
    ensures UuidCount(units, units[i].uuid.value) >= 2
  {
    var n := |units| - 1;
    if j < n {
      TwiceCountsTwo(units[..n], i, j);
    } else {
      OnceCountsOne(units[..n], i);
    }
  }

  lemma {:induction false} OnceCountsOne(units: seq<CasaUnit>, i: nat)
    requires i < |units| && Addressless(units[i]) && units[i].uuid.Some?
    ensures UuidCount(units, units[i].uuid.value) >= 1
  {
    if i < |units| - 1 {
      OnceCountsOne(units[..|units| - 1], i);
    }
  }

  /** Whether the snapshot publishes this unit at all. */
  predicate Publishable(units: seq<CasaUnit>, base: string, u: CasaUnit) {
    (Addressless(u) ==> IsUnique(units, u)) && UnitEventTopic(base, u).Some?
  }

  /** No two addressless units of one snapshot are ever published on the same topic. */
  lemma AddresslessTopicsAreDistinct(units: seq<CasaUnit>, base: string, i: nat, j: nat)
    requires i < j < |units| && Addressless(units[i]) && Addressless(units[j])
    requires Publishable(units, base, units[i]) && Publishable(units, base, units[j])
    ensures UnitEventTopic(base, units[i]) != UnitEventTopic(base, units[j])
  {
    if UnitEventTopic(base, units[i]) == UnitEventTopic(base, units[j]) {
      AddresslessTopicsAreInjective(base, units[i], units[j]);
      TwiceCountsTwo(units, i, j);
    }
  }

  /**
   * What a snapshot publishes: every unit with an address, and of the others exactly those with a
   * UUID that no other addressless unit carries.
   */
  lemma PublishableExactly(units: seq<CasaUnit>, base: string, i: nat)
    requires i < |units|
    ensures var u := units[i];
            Publishable(units, base, u) <==>
            || u.address != ""
            || (u.uuid.Some? && u.uuid.value != []
                && forall j :: 0 <= j < |units| && j != i && units[j].address == "" ==> units[j].uuid != u.uuid)
  {
    var u := units[i];
    if u.address == "" && u.uuid.Some? {
      CountsOneExactly(units, i);
    }
  }

  /** A UUID counts once exactly if one position alone carries it. */
  lemma CountsOneExactly(units: seq<CasaUnit>, i: nat)
    requires i < |units| && Addressless(units[i]) && units[i].uuid.Some?
    ensures UuidCount(units, units[i].uuid.value) == 1 <==>
            forall j :: 0 <= j < |units| && j != i && Addressless(units[j]) ==> units[j].uuid != units[i].uuid
  {
    OnceCountsOne(units, i);
    if j :| 0 <= j < |units| && j != i && Addressless(units[j]) && units[j].uuid == units[i].uuid {
      if i < j {
        TwiceCountsTwo(units, i, j);
      } else {
        TwiceCountsTwo(units, j, i);
      }
    } else {
      AloneCountsOne(units, i);
    }
  }

  lemma {:induction false} AbsentCountsNone(units: seq<CasaUnit>, uuid: seq<Byte>)
    requires forall j :: 0 <= j < |units| && Addressless(units[j]) ==> units[j].uuid != Some(uuid)
    ensures UuidCount(units, uuid) == 0
  {
    if units != [] {
      AbsentCountsNone(units[..|units| - 1], uuid);
    }
  }

  lemma {:induction false} AloneCountsOne(units: seq<CasaUnit>, i: nat)
    requires i < |units| && Addressless(units[i]) && units[i].uuid.Some?
    requires forall j :: 0 <= j < |units| && j != i && Addressless(units[j]) ==> units[j].uuid != units[i].uuid
    ensures UuidCount(units, units[i].uuid.value) == 1
  {
    var n := |units| - 1;
    if i < n {
      AloneCountsOne(units[..n], i);
    } else {
      AbsentCountsNone(units[..n], units[i].uuid.value);
    }
  }

  /** Every unit topic lies under the prefix the receiver listens to, and none is the tombstone. */
  lemma UnitTopicsAreHeard(base: string, u: CasaUnit)
    requires UnitEventTopic(base, u).Some?
    ensures HealthObserver.IsUnitEventTopic(UnitEventTopic(base, u).value, base + "/events/")
    ensures !HealthObserver.IsUnitEventTopic(Tombstone(base), base + "/events/")
  {
    var prefix := base + "/events/";
    if Addressless(u) {
      assert UnitEventTopic(base, u).value == prefix + ("uuid/" + Quote(u.uuid.value));
    }
  }

  /** Two units share a topic exactly if they share an address, a UUID, or one's address spells the other's UUID. */
  lemma TopicsCollideExactly(base: string, u: CasaUnit, v: CasaUnit)
    requires UnitEventTopic(base, u).Some? && UnitEventTopic(base, v).Some?
    ensures UnitEventTopic(base, u) == UnitEventTopic(base, v) <==>
            if u.address == "" && v.address == "" then u.uuid == v.uuid
            else if u.address == "" then v.address == "uuid/" + Quote(u.uuid.value)
            else if v.address == "" then u.address == "uuid/" + Quote(v.uuid.value)
            else u.address == v.address
  {
    var s, t := Suffix(base, u), Suffix(base, v);
    var prefix := base + "/events/";
    assert (prefix + s)[|prefix|..] == s && (prefix + t)[|prefix|..] == t;
    if Addressless(u) && Addressless(v) && UnitEventTopic(base, u) == UnitEventTopic(base, v) {
      AddresslessTopicsAreInjective(base, u, v);
    }
  }

  /** What follows the prefix in a unit's topic. */
  ghost function Suffix(base: string, u: CasaUnit): (suffix: string)
    requires UnitEventTopic(base, u).Some?
    ensures UnitEventTopic(base, u).value == (base + "/events/") + suffix
    ensures suffix == if u.address != "" then u.address else "uuid/" + Quote(u.uuid.value)
  {
    if Addressless(u) then
      assert base + "/events/uuid/" + Quote(u.uuid.value) == (base + "/events/") + ("uuid/" + Quote(u.uuid.value));
      "uuid/" + Quote(u.uuid.value)
    else u.address
  }

  // ---- Publishing ---------------------------------------------------------

  datatype Attempt = Attempt(topic: string, confirmed: bool)

  /** The broker: it confirms or rejects each publish as it pleases. */
  class Broker {
    var log: seq<Attempt>

    constructor ()
      ensures log == []
    {
      log := [];
    }

    method Publish(topic: string) returns (confirmed: bool)
      modifies this
      ensures log == old(log) + [Attempt(topic, confirmed)]
    {
      confirmed := *;
      log := log + [Attempt(topic, confirmed)];
    }
  }

  function Tombstone(base: string): string {
    base + "/events/"
  }

  /** The topics of the publishable units among the first units, in order. */
  function UnitTopics(all: seq<CasaUnit>, base: string, units: seq<CasaUnit>): seq<string> {
    if units == [] then []
    else
      var last := units[|units| - 1];
      UnitTopics(all, base, units[..|units| - 1])
      + if Publishable(all, base, last) then [UnitEventTopic(base, last).value] else []
  }

  function SceneTopic(base: string, scene: nat): string {
    base + "/scenes/" + Decimal(scene)
  }

  function Decimal(n: nat): string {
    if n < 10 then [(48 + n) as char] else Decimal(n / 10) + [(48 + n % 10) as char]
  }

  /** The number a decimal numeral stands for. */
  ghost function Value(digits: string): (n: int) {
    if digits == "" then 0 else 10 * Value(digits[..|digits| - 1]) + (digits[|digits| - 1] as int - 48)
  }

  lemma {:induction false} DecimalReadsBack(n: nat)
    ensures Value(Decimal(n)) == n
  {
    if n >= 10 {
      DecimalReadsBack(n / 10);
      assert Decimal(n)[..|Decimal(n)| - 1] == Decimal(n / 10);
    } else {
      assert Decimal(n)[..0] == "";
    }
  }

  /** No two scenes share a topic. */
  lemma SceneTopicsAreDistinct(base: string, a: nat, b: nat)
    requires SceneTopic(base, a) == SceneTopic(base, b)
    ensures a == b
  {
    var prefix := base + "/scenes/";
    assert (prefix + Decimal(a))[|prefix|..] == Decimal(a) && (prefix + Decimal(b))[|prefix|..] == Decimal(b);
    DecimalReadsBack(a);
    DecimalReadsBack(b);
  }

  function SceneTopics(base: string, scenes: seq<nat>): seq<string> {
    seq(|scenes|, i requires 0 <= i < |scenes| => SceneTopic(base, scenes[i]))
  }

  function SkippedCount(all: seq<CasaUnit>, base: string, units: seq<CasaUnit>): nat {
    if units == [] then 0
    else
      var last := units[|units| - 1];
      SkippedCount(all, base, units[..|units| - 1]) + if Publishable(all, base, last) then 0 else 1
  }

  lemma {:induction false} EveryUnitIsPublishedOrSkipped(all: seq<CasaUnit>, base: string, units: seq<CasaUnit>)
    ensures |UnitTopics(all, base, units)| + SkippedCount(all, base, units) == |units|
  {
    if units != [] {
      EveryUnitIsPublishedOrSkipped(all, base, units[..|units| - 1]);
    }
  }

  function Topics(attempts: seq<Attempt>): seq<string> {
    seq(|attempts|, i requires 0 <= i < |attempts| => attempts[i].topic)
  }

  function Confirmed(attempts: seq<Attempt>): nat {
    if attempts == [] then 0
    else Confirmed(attempts[..|attempts| - 1]) + if attempts[|attempts| - 1].confirmed then 1 else 0
  }

  lemma {:induction false} ConfirmedIsBounded(attempts: seq<Attempt>)
    ensures Confirmed(attempts) <= |attempts|
    ensures Confirmed(attempts) == |attempts| <==> forall i :: 0 <= i < |attempts| ==> attempts[i].confirmed
  {
    if attempts != [] {
      ConfirmedIsBounded(attempts[..|attempts| - 1]);
    }
  }

  lemma AttemptAppends(attempts: seq<Attempt>, topic: string, confirmed: bool)
    ensures Confirmed(attempts + [Attempt(topic, confirmed)]) == Confirmed(attempts) + if confirmed then 1 else 0
    ensures Topics(attempts + [Attempt(topic, confirmed)]) == Topics(attempts) + [topic]
  {
    assert (attempts + [Attempt(topic, confirmed)])[..|attempts|] == attempts;
  }

  /** What one snapshot did: the tombstone's fate, then the units' attempts, then the scenes'. */
  ghost predicate Records(
    units: seq<CasaUnit>, scenes: seq<nat>, base: string, result: BridgeHealth.SnapshotResult,
    tombstone: Attempt, unitAttempts: seq<Attempt>, sceneAttempts: seq<Attempt>)
  {
    && tombstone.topic == Tombstone(base)
    && Topics(unitAttempts) == UnitTopics(units, base, units)
    && Topics(sceneAttempts) == SceneTopics(base, scenes)
    && result.units == Confirmed(unitAttempts)
    && result.scenes == Confirmed(sceneAttempts)
    && result.failed == (if tombstone.confirmed then 0 else 1)
                        + |unitAttempts| - Confirmed(unitAttempts) + |sceneAttempts| - Confirmed(sceneAttempts)
  }

  /** The units' part of publish_snapshot. */
  method PublishUnits(units: seq<CasaUnit>, base: string, broker: Broker)
    returns (published: nat, failed: nat, ghost attempts: seq<Attempt>)
    modifies broker
    ensures broker.log == old(broker.log) + attempts
    ensures Topics(attempts) == UnitTopics(units, base, units)
    ensures published == Confirmed(attempts) && failed == |attempts| - Confirmed(attempts)
  {
    var counts := CountUuids(units);
    published, failed, attempts := 0, 0, [];
    for i := 0 to |units|
      invariant broker.log == old(broker.log) + attempts
      invariant Topics(attempts) == UnitTopics(units, base, units[..i])
      invariant published == Confirmed(attempts) && failed == |attempts| - Confirmed(attempts)
    {
      assert units[..i + 1][..i] == units[..i];
      var unit := units[i];
      if unit.address == "" {
        if unit.uuid.None? || !(unit.uuid.value in counts && counts[unit.uuid.value] == 1) {
          continue;
        }
      }
      var topic := UnitEventTopic(base, unit);
      if topic.None? {
        continue;
      }
      var confirmed := broker.Publish(topic.value);
      AttemptAppends(attempts, topic.value, confirmed);
      attempts := attempts + [Attempt(topic.value, confirmed)];
      if confirmed {
        published := published + 1;
      } else {
        failed := failed + 1;
      }
    }
    assert units[..|units|] == units;
  }

  /** The scenes' part of publish_snapshot. */
  method PublishScenes(scenes: seq<nat>, base: string, broker: Broker)
    returns (published: nat, failed: nat, ghost attempts: seq<Attempt>)
    modifies broker
    ensures broker.log == old(broker.log) + attempts
    ensures Topics(attempts) == SceneTopics(base, scenes)
    ensures published == Confirmed(attempts) && failed == |attempts| - Confirmed(attempts)
  {
    published, failed, attempts := 0, 0, [];
    for i := 0 to |scenes|
      invariant broker.log == old(broker.log) + attempts
      invariant Topics(attempts) == SceneTopics(base, scenes[..i])
      invariant published == Confirmed(attempts) && failed == |attempts| - Confirmed(attempts)
    {
      var topic := SceneTopic(base, scenes[i]);
      var confirmed := broker.Publish(topic);
      AttemptAppends(attempts, topic, confirmed);
      assert SceneTopics(base, scenes[..i + 1]) == SceneTopics(base, scenes[..i]) + [topic];
      attempts := attempts + [Attempt(topic, confirmed)];
      if confirmed {
        published := published + 1;
      } else {
        failed := failed + 1;
      }
    }
    assert scenes[..|scenes|] == scenes;
  }

  /** publish_snapshot: the tombstone first, then every publishable unit, then every scene. */
  method PublishSnapshot(units: seq<CasaUnit>, scenes: seq<nat>, base: string, broker: Broker)
    returns (result: BridgeHealth.SnapshotResult,
             ghost tombstone: Attempt, ghost unitAttempts: seq<Attempt>, ghost sceneAttempts: seq<Attempt>)
    modifies broker
    ensures broker.log == old(broker.log) + [tombstone] + unitAttempts + sceneAttempts
    ensures Records(units, scenes, base, result, tombstone, unitAttempts, sceneAttempts)
  {
    var unitsPublished, scenesPublished, unitsFailed, scenesFailed;
    var cleared := broker.Publish(Tombstone(base));
    tombstone := Attempt(Tombstone(base), cleared);
    unitsPublished, unitsFailed, unitAttempts := PublishUnits(units, base, broker);
    scenesPublished, scenesFailed, sceneAttempts := PublishScenes(scenes, base, broker);
    var failed := (if cleared then 0 else 1) + unitsFailed + scenesFailed;
    result := BridgeHealth.SnapshotResult(unitsPublished, scenesPublished, failed);
  }

  /**
   * Nothing is counted twice and nothing disappears: units, scenes, failures, skipped units
   * and a confirmed tombstone account for every unit, every scene and the tombstone.
   */
  lemma CountersConserve(
    units: seq<CasaUnit>, scenes: seq<nat>, base: string, result: BridgeHealth.SnapshotResult,
    tombstone: Attempt, unitAttempts: seq<Attempt>, sceneAttempts: seq<Attempt>)
    requires Records(units, scenes, base, result, tombstone, unitAttempts, sceneAttempts)
    ensures result.units + result.scenes + result.failed + SkippedCount(units, base, units)
            + (if tombstone.confirmed then 1 else 0) == |units| + |scenes| + 1
  {
    EveryUnitIsPublishedOrSkipped(units, base, units);
    assert |Topics(unitAttempts)| == |unitAttempts| && |Topics(sceneAttempts)| == |sceneAttempts|;
  }

  /** A snapshot is `ok` exactly when the tombstone, every publishable unit and every scene was confirmed. */
  lemma OkExactlyWhenAllConfirmed(
    units: seq<CasaUnit>, scenes: seq<nat>, base: string, result: BridgeHealth.SnapshotResult,
    tombstone: Attempt, unitAttempts: seq<Attempt>, sceneAttempts: seq<Attempt>)
    requires Records(units, scenes, base, result, tombstone, unitAttempts, sceneAttempts)
    ensures result.Ok() <==>
            && tombstone.confirmed
            && (forall i :: 0 <= i < |unitAttempts| ==> unitAttempts[i].confirmed)
            && (forall i :: 0 <= i < |sceneAttempts| ==> sceneAttempts[i].confirmed)
    ensures result.Ok() ==> result.units + SkippedCount(units, base, units) == |units| && result.scenes == |scenes|
  {
    ConfirmedIsBounded(unitAttempts);
    ConfirmedIsBounded(sceneAttempts);
    CountersConserve(units, scenes, base, result, tombstone, unitAttempts, sceneAttempts);
    assert |Topics(sceneAttempts)| == |sceneAttempts|;
  }

  /**
   * _handle_snapshot_request with a request ID. A request over the rate limit publishes
   * nothing and claims nothing; otherwise the reply says `ok` only for a complete snapshot.
   */
  method HandleSnapshotRequest(
    units: seq<CasaUnit>, scenes: seq<nat>, base: string, broker: Broker, health: BridgeHealth.BridgeHealth,
    requestId: string, allowed: bool, replyAllowed: bool, time: string)
    returns (reply: Option<HealthReply>,
             ghost tombstone: Attempt, ghost unitAttempts: seq<Attempt>, ghost sceneAttempts: seq<Attempt>)
    requires health.Valid() && ValidRequestId(requestId)
    modifies broker, health
    ensures health.Valid()
    ensures !allowed ==> broker.log == old(broker.log) && (reply.Some? <==> replyAllowed)
    ensures !allowed && reply.Some? ==>
              reply.value.result == RESULT_RATE_LIMITED && reply.value.counters == Some(ReplyCounters(0, 0, 0, 0))
    ensures allowed ==>
              && broker.log == old(broker.log) + [tombstone] + unitAttempts + sceneAttempts
              && reply.Some? && reply.value.requestId == requestId && reply.value.counters.Some?
              && var c := reply.value.counters.value;
                 && Records(units, scenes, base, BridgeHealth.SnapshotResult(c.units, c.scenes, c.failed),
                            tombstone, unitAttempts, sceneAttempts)
                 && c.generation == |health.completed| == |old(health.completed)| + 1
                 && health.completed[|old(health.completed)|].result
                    == BridgeHealth.SnapshotResult(c.units, c.scenes, c.failed)
                 && (reply.value.result == "ok" || reply.value.result == "failed")
                 && (reply.value.result == "ok" <==> c.failed == 0)
                 && (reply.value.result == "ok" <==>
                       && tombstone.confirmed
                       && (forall i :: 0 <= i < |unitAttempts| ==> unitAttempts[i].confirmed)
                       && (forall i :: 0 <= i < |sceneAttempts| ==> sceneAttempts[i].confirmed))
  {
    tombstone, unitAttempts, sceneAttempts := Attempt("", false), [], [];
    if !allowed {
      if !replyAllowed {
        return None, tombstone, unitAttempts, sceneAttempts;
      }
      var busy := health.BuildReply(requestId, RESULT_RATE_LIMITED, Some(BridgeHealth.SnapshotResult(0, 0, 0)), 0,
          time);
      return Some(busy), tombstone, unitAttempts, sceneAttempts;
    }
    var result;
    result, tombstone, unitAttempts, sceneAttempts := PublishSnapshot(units, scenes, base, broker);
    var generation := health.RecordSnapshot(result);
    var answer := health.BuildReply(
      requestId, if result.Ok() then RESULT_OK else RESULT_FAILED, Some(result), generation, time);
    OkExactlyWhenAllConfirmed(units, scenes, base, result, tombstone, unitAttempts, sceneAttempts);
    reply := Some(answer);
  }
}
