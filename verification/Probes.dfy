/**
 * health.py, ProbeTracker: the pending probe, certified only by its own reply and by every
 * unit message that arrived meanwhile.
 */
module Probes {
  import opened Basics
  import opened HealthProtocol

  datatype ProbeKind = STATUS | CONSUMER

  datatype ProbeOutcome =
    | OK | NO_REPLY | BRIDGE_FAILED | BRIDGE_BUSY | DELIVERY_INCOMPLETE
    | CONSUMER_PARTIAL | CONSUMER_STALE | NO_UNITS | SUPERSEDED

  /** A message without an identity gets a key of its own, which nothing else can match. */
  datatype KeyId = Stamped(identity: int) | Unmatched(serial: nat)

  datatype MessageKey = MessageKey(topic: string, id: KeyId)

  datatype PendingProbe = PendingProbe(
    kind: ProbeKind, requestId: string, sentAt: real, deadlineAt: real, instanceId: Option<string>,
    reply: Option<HealthReply>, rawMessages: set<MessageKey>, processedMessages: set<MessageKey>)
  {
    function RawTopics(): set<string> {
      set m | m in rawMessages :: m.topic
    }

    /** Topics whose every received message was handled. */
    function ProcessedTopics(): set<string> {
      RawTopics() - set m | m in rawMessages && m !in processedMessages :: m.topic
    }

    predicate AllHandled() { rawMessages <= processedMessages }

    predicate AnyHandled() { rawMessages * processedMessages != {} }

    /** The units the accepted reply confirmed. */
    function ExpectedUnits(): Option<nat> {
      if reply.None? || reply.value.counters.None? then None else Some(reply.value.counters.value.units)
    }

    function Units(): nat {
      if ExpectedUnits().Some? then ExpectedUnits().value else 0
    }

    predicate Certified() {
      kind == CONSUMER && Units() != 0 && |RawTopics()| >= Units() && AllHandled()
    }

    /** What a probe whose deadline has passed is worth. It does not depend on the time. */
    function Verdict(): ProbeOutcome {
      if reply.None? then NO_REPLY
      else if |RawTopics()| < Units() then DELIVERY_INCOMPLETE
      else if !AnyHandled() then CONSUMER_STALE
      else CONSUMER_PARTIAL
    }

    function Judge(now: real): Option<ProbeOutcome> {
      if now <= deadlineAt then if Certified() then Some(OK) else None
      else Some(Verdict())
    }

    predicate SpansInstances(live: Option<string>) {
      live.Some? && ((instanceId.Some? && instanceId != live) || (reply.Some? && reply.value.instanceId != live.value))
    }

    /** Whether a reply is this probe's own: its ID, its type, in time, from the live instance. */
    predicate Matches(answer: HealthReply, now: real, live: Option<string>) {
      && reply.None?
      && answer.requestId == requestId
      && now <= deadlineAt
      && (live.Some? ==> answer.instanceId == live.value)
      && answer.kind == (if kind == STATUS then REPLY_STATUS else REPLY_SNAPSHOT)
    }

    /** What an accepted reply settles at once. */
    function Settled(now: real): Option<ProbeOutcome>
      requires reply.Some?
    {
      if reply.value.result in {RESULT_RATE_LIMITED, RESULT_BUSY} then Some(BRIDGE_BUSY)
      else if reply.value.result != RESULT_OK then Some(BRIDGE_FAILED)
      else if kind == STATUS then Some(OK)
      else if Units() == 0 then Some(NO_UNITS)
      else Judge(now)
    }
  }

  datatype ProbeResult = ProbeResult(
    kind: ProbeKind, outcome: ProbeOutcome, finishedAt: real,
    expectedUnits: Option<nat>, rawUnits: nat, processedUnits: nat)

  function ResultOf(p: PendingProbe, outcome: ProbeOutcome, now: real): ProbeResult {
    ProbeResult(p.kind, outcome, now, p.ExpectedUnits(), |p.RawTopics()|, |p.ProcessedTopics()|)
  }

  /** The tracker, and the results it hands out, as values. */
  datatype Tracker = Tracker(pending: Option<PendingProbe>, rejected: nat, serial: nat) {

    function Collecting(now: real): bool {
      pending.Some? && pending.value.kind == CONSUMER && now <= pending.value.deadlineAt
    }

    function KeyOf(topic: string, identity: Option<int>): MessageKey {
      MessageKey(topic, match identity case Some(i) => Stamped(i) case None => Unmatched(serial))
    }

    /** The pending probe, with what one more reply or message adds to it. */
    function WithReply(answer: HealthReply): Tracker
      requires pending.Some?
    {
      this.(pending := Some(pending.value.(reply := Some(answer))))
    }

    function WithRaw(key: MessageKey): Tracker
      requires pending.Some?
    {
      this.(pending := Some(pending.value.(rawMessages := pending.value.rawMessages + {key})), serial := serial + 1)
    }

    function WithProcessed(key: MessageKey): Tracker
      requires pending.Some?
    {
      this.(pending := Some(pending.value.(processedMessages := pending.value.processedMessages + {key})),
          serial := serial + 1)
    }

    /** End the pending probe if `outcome` says so. */
    function Conclude(outcome: Option<ProbeOutcome>, now: real): (Tracker, Option<ProbeResult>) {
      if pending.None? || outcome.None? then (this, None)
      else (this.(pending := None), Some(ResultOf(pending.value, outcome.value, now)))
    }

    function Check(now: real): (Tracker, Option<ProbeResult>) {
      if pending.None? then (this, None) else Conclude(pending.value.Judge(now), now)
    }

    function Start(kind: ProbeKind, token: string, now: real, deadline: real, live: Option<string>): Tracker {
      if pending.Some? then this
      else this.(pending := Some(PendingProbe(kind, token, now, now + deadline, live, None, {}, {})))
    }

    function OnReply(answer: Option<HealthReply>, now: real, live: Option<string>): (Tracker, Option<ProbeResult>) {
      if answer.None? || pending.None? || !pending.value.Matches(answer.value, now, live) then
        (this.(rejected := rejected + 1), None)
      else
        var replied := WithReply(answer.value);
        replied.Conclude(replied.pending.value.Settled(now), now)
    }

    function RecordRaw(topic: string, now: real, identity: Option<int>): (Tracker, Option<ProbeResult>) {
      if Collecting(now) then WithRaw(KeyOf(topic, identity)).Check(now) else Check(now)
    }

    function RecordProcessed(topic: string, now: real, identity: Option<int>): (Tracker, Option<ProbeResult>) {
      if Collecting(now) then WithProcessed(KeyOf(topic, identity)).Check(now) else Check(now)
    }

    function Supersede(now: real, live: Option<string>): (Tracker, Option<ProbeResult>) {
      if pending.Some? && pending.value.SpansInstances(live) then Conclude(Some(SUPERSEDED), now) else (this, None)
    }
  }

  const NEW_TRACKER := Tracker(None, 0, 0)

  class ProbeTracker {
    const deadlineSeconds: real
    var pending: Option<PendingProbe>
    var rejectedReplies: nat
    /** Distinguishes the keys of messages without an identity. */
    var serial: nat

    function View(): Tracker
      reads this
    {
      Tracker(pending, rejectedReplies, serial)
    }

    constructor (deadlineSeconds: real)
      ensures View() == NEW_TRACKER && this.deadlineSeconds == deadlineSeconds
    {
      this.deadlineSeconds := deadlineSeconds;
      pending := None;
      rejectedReplies := 0;
      serial := 0;
    }

    method Start(kind: ProbeKind, token: string, now: real, instanceId: Option<string>)
        returns (started: Option<PendingProbe>)
      modifies this`pending
      ensures View() == old(View()).Start(kind, token, now, deadlineSeconds, instanceId)
      ensures started == if old(pending).Some? then None else pending
    {
      if pending.Some? {
        return None;
      }
      pending := Some(PendingProbe(kind, token, now, now + deadlineSeconds, instanceId, None, {}, {}));
      return pending;
    }

    method OnReply(reply: Option<HealthReply>, now: real, instanceId: Option<string>)
        returns (result: Option<ProbeResult>)
      modifies this
      ensures (View(), result) == old(View()).OnReply(reply, now, instanceId)
    {
      if reply.None? || pending.None?
         || pending.value.reply.Some?
         || reply.value.requestId != pending.value.requestId
         || now > pending.value.deadlineAt
         || (instanceId.Some? && reply.value.instanceId != instanceId.value)
         || reply.value.kind != (if pending.value.kind == STATUS then REPLY_STATUS else REPLY_SNAPSHOT)
      {
        rejectedReplies := rejectedReplies + 1;
        return None;
      }
      pending := Some(pending.value.(reply := reply));
      if reply.value.result in {RESULT_RATE_LIMITED, RESULT_BUSY} {
        result := Finish(BRIDGE_BUSY, now);
        return;
      }
      if reply.value.result != RESULT_OK {
        result := Finish(BRIDGE_FAILED, now);
        return;
      }
      if pending.value.kind == STATUS {
        result := Finish(OK, now);
        return;
      }
      if pending.value.Units() == 0 {
        result := Finish(NO_UNITS, now);
        return;
      }
      result := Check(now);
    }

    /** _collecting: only a consumer probe still within its deadline gathers evidence. */
    method Collecting(now: real) returns (collecting: bool)
      ensures collecting == View().Collecting(now)
    {
      return !(pending.None? || pending.value.kind != CONSUMER || now > pending.value.deadlineAt);
    }

    method RecordRaw(topic: string, now: real, identity: Option<int>) returns (result: Option<ProbeResult>)
      modifies this`pending, this`serial
      ensures (View(), result) == old(View()).RecordRaw(topic, now, identity)
    {
      var collecting := Collecting(now);
      if collecting {
        var key := MessageKey(topic, if identity.Some? then Stamped(identity.value) else Unmatched(serial));
        serial := serial + 1;
        pending := Some(pending.value.(rawMessages := pending.value.rawMessages + {key}));
      }
      result := Check(now);
    }

    method RecordProcessed(topic: string, now: real, identity: Option<int>) returns (result: Option<ProbeResult>)
      modifies this`pending, this`serial
      ensures (View(), result) == old(View()).RecordProcessed(topic, now, identity)
    {
      var collecting := Collecting(now);
      if collecting {
        var key := MessageKey(topic, if identity.Some? then Stamped(identity.value) else Unmatched(serial));
        serial := serial + 1;
        pending := Some(pending.value.(processedMessages := pending.value.processedMessages + {key}));
      }
      result := Check(now);
    }

    /** A probe that spans two bridge instances proves nothing either way. */
    method Supersede(now: real, instanceId: Option<string>) returns (result: Option<ProbeResult>)
      modifies this`pending
      ensures (View(), result) == old(View()).Supersede(now, instanceId)
    {
      if pending.None? || instanceId.None? {
        return None;
      }
      var startedOn := pending.value.instanceId;
      var repliedBy := match pending.value.reply case None => None case Some(r) => Some(r.instanceId);
      if (startedOn.Some? && startedOn != instanceId) || (repliedBy.Some? && repliedBy != instanceId) {
        result := Finish(SUPERSEDED, now);
        return;
      }
      return None;
    }

    /** Certified evidence ends a probe in time; after the deadline its verdict does. */
    method Check(now: real) returns (result: Option<ProbeResult>)
      modifies this`pending
      ensures (View(), result) == old(View()).Check(now)
    {
      if pending.None? {
        return None;
      }
      var p := pending.value;
      if now <= p.deadlineAt {
        if p.kind == CONSUMER && p.reply.Some? && p.Units() != 0 && |p.RawTopics()| >= p.Units() && p.AllHandled() {
          result := Finish(OK, now);
          return;
        }
        return None;
      }
      if p.reply.None? {
        result := Finish(NO_REPLY, now);
        return;
      }
      if |p.RawTopics()| < p.Units() {
        result := Finish(DELIVERY_INCOMPLETE, now);
        return;
      }
      if !p.AnyHandled() {
        result := Finish(CONSUMER_STALE, now);
        return;
      }
      result := Finish(CONSUMER_PARTIAL, now);
    }

    method Finish(outcome: ProbeOutcome, now: real) returns (result: Option<ProbeResult>)
      requires pending.Some?
      modifies this`pending
      ensures pending.None? && result == Some(ResultOf(old(pending).value, outcome, now))
    {
      var p := pending.value;
      pending := None;
      return Some(ProbeResult(p.kind, outcome, now, p.ExpectedUnits(), |p.RawTopics()|, |p.ProcessedTopics()|));
    }
  }
}
