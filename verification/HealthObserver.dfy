/**
 * health.py, HealthObserver: the decision core of one config entry, and what its probe
 * results prove over every interleaving of status messages, replies, unit messages, handled
 * messages and ticks.
 */
module HealthObserver {
  import opened Basics
  import opened HealthProtocol
  import opened Probes
  import StatusTracker

  datatype HealthSettings = HealthSettings(
    tracker: StatusTracker.TrackerSettings, probeInterval: real, consumerProbeInterval: real,
    probeDeadline: real, eventPrefix: string)

  /** One call into the observer, with the clock reading it makes. */
  datatype Event =
    | StatusMessage(delivery: StatusTracker.Delivery)
    | ReplyMessage(reply: Option<HealthReply>, now: real)
    | RawUnit(topic: string, empty: bool, identity: Option<int>, now: real)
    | ProcessedUnit(topic: string, identity: Option<int>, now: real)
    | Tick(consumerReady: bool, token: string, now: real)
    | RequestProbe(kind: ProbeKind, token: string, now: real)
    | Schedule(kind: ProbeKind, delay: real, now: real)
  {
    function Time(): real {
      match this
      case StatusMessage(d) => d.now
      case _ => now
    }
  }

  /** is_unit_event_topic: something follows the prefix. */
  predicate IsUnitEventTopic(topic: string, prefix: string) {
    prefix <= topic && |topic| > |prefix|
  }

  /** When the next probe of each kind is due. */
  datatype DueTimes = DueTimes(status: real, consumer: real) {
    function At(kind: ProbeKind): real {
      if kind == CONSUMER then consumer else status
    }

    function With(kind: ProbeKind, time: real): DueTimes {
      if kind == CONSUMER then this.(consumer := time) else this.(status := time)
    }
  }

  datatype Observer = Observer(
    bridge: StatusTracker.Tracker, probes: Tracker, nextDue: DueTimes,
    lastResult: map<ProbeKind, ProbeResult>, lastOk: map<ProbeKind, real>)
  {
    function Publish(after: (Tracker, Option<ProbeResult>)): (Observer, Option<ProbeResult>) {
      match after.1
      case None => (this.(probes := after.0), None)
      case Some(r) =>
        (this.(probes := after.0, lastResult := lastResult[r.kind := r],
               lastOk := if r.outcome == OK then lastOk[r.kind := r.finishedAt] else lastOk), after.1)
    }

    /** tick considers the kinds most overdue first; STATUS wins a tie. */
    function Order(): (ProbeKind, ProbeKind)
    {
      if nextDue.consumer < nextDue.status then (CONSUMER, STATUS) else (STATUS, CONSUMER)
    }

    predicate Eligible(s: HealthSettings, startedAt: real, kind: ProbeKind, consumerReady: bool, now: real)
    {
      && now >= nextDue.At(kind)
      && (kind == CONSUMER ==> bridge.Evaluate(s.tracker, startedAt, now) == StatusTracker.HEALTHY && consumerReady)
    }

    /** _never_answered: the last status probe got no reply, and none ever succeeded. */
    predicate NeverAnswered() {
      STATUS in lastResult && lastResult[STATUS].outcome == NO_REPLY && STATUS !in lastOk
    }

    /** bridge_state: a bridge that never answers a status probe does not support them. */
    function BridgeState(s: HealthSettings, startedAt: real, now: real): StatusTracker.BridgeState {
      var state := bridge.Evaluate(s.tracker, startedAt, now);
      if state == StatusTracker.UNKNOWN && NeverAnswered() then StatusTracker.UNSUPPORTED else state
    }

    function Due(s: HealthSettings, startedAt: real, consumerReady: bool, now: real): Option<ProbeKind>
    {
      if probes.pending.Some? then None
      else if Eligible(s, startedAt, Order().0, consumerReady, now) then Some(Order().0)
      else if Eligible(s, startedAt, Order().1, consumerReady, now) then Some(Order().1)
      else None
    }

    function StartProbe(s: HealthSettings, kind: ProbeKind, token: string, now: real): Observer {
      if probes.pending.Some? then this
      else this.(
        probes := probes.Start(kind, token, now, s.probeDeadline, bridge.InstanceId()),
        nextDue := nextDue.With(kind, now + if kind == CONSUMER then s.consumerProbeInterval else s.probeInterval))
    }

    /** One call: the observer after it, and the probe result it published, if any. */
    function Step(s: HealthSettings, startedAt: real, e: Event): (Observer, Option<ProbeResult>)
    {
      match e
      case StatusMessage(d) =>
        var heard := this.(bridge := bridge.Step(d));
        if bridge.Accepts(d) then heard.Publish(probes.Supersede(d.now, heard.bridge.InstanceId())) else (heard, None)
      case ReplyMessage(reply, now) => Publish(probes.OnReply(reply, now, bridge.InstanceId()))
      case RawUnit(topic, empty, identity, now) =>
        if empty || !IsUnitEventTopic(topic, s.eventPrefix) then (this, None)
        else Publish(probes.RecordRaw(topic, now, identity))
      case ProcessedUnit(topic, identity, now) =>
        if !IsUnitEventTopic(topic, s.eventPrefix) then (this, None)
        else Publish(probes.RecordProcessed(topic, now, identity))
      case Tick(consumerReady, token, now) =>
        var (checked, result) := Publish(probes.Check(now));
        (match checked.Due(s, startedAt, consumerReady, now)
         case None => checked
         case Some(kind) => checked.StartProbe(s, kind, token, now), result)
      case RequestProbe(kind, token, now) => (StartProbe(s, kind, token, now), None)
      case Schedule(kind, delay, now) => (this.(nextDue := nextDue.With(kind, now + delay)), None)
    }
  }

  function NewObserver(s: HealthSettings, startedAt: real): Observer {
    Observer(StatusTracker.NEW_TRACKER, NEW_TRACKER,
             DueTimes(startedAt + s.tracker.startupGraceSeconds, startedAt + s.tracker.startupGraceSeconds),
             map[], map[])
  }

  // ---- Runs with evidence -------------------------------------------------

  /**
   * An observer together with what its pending probe's evidence is judged against: every
   * call since that probe started, with the bridge instance that was live when it came, and
   * how many probes have started and finished.
   */
  datatype World = World(observer: Observer, since: seq<Event>, lives: seq<Option<string>>,
                         started: nat, finished: nat)

  ghost function Advance(s: HealthSettings, startedAt: real, w: World, e: Event): World
  {
    var (next, result) := w.observer.Step(s, startedAt, e);
    var ended := if result.Some? then 1 else 0;
    var began := Began(w.observer, next, result);
    World(next, if began then [] else w.since + [e],
          if began then [] else w.lives + [w.observer.bridge.InstanceId()],
          w.started + (if began then 1 else 0), w.finished + ended)
  }

  /** The call started a probe: one is pending that was not pending before. */
  ghost predicate Began(before: Observer, after: Observer, result: Option<ProbeResult>) {
    after.probes.pending.Some? && (before.probes.pending.None? || result.Some?)
  }

  ghost function Run(s: HealthSettings, startedAt: real, events: seq<Event>): World
  {
    if events == [] then World(NewObserver(s, startedAt), [], [], 0, 0)
    else Advance(s, startedAt, Run(s, startedAt, events[..|events| - 1]), events[|events| - 1])
  }

  /** A unit message was delivered by the deadline. */
  ghost predicate Delivered(s: HealthSettings, e: Event, deadline: real) {
    e.RawUnit? && !e.empty && IsUnitEventTopic(e.topic, s.eventPrefix) && e.now <= deadline
  }

  ghost predicate Handled(s: HealthSettings, e: Event, deadline: real) {
    e.ProcessedUnit? && IsUnitEventTopic(e.topic, s.eventPrefix) && e.now <= deadline
  }

  ghost function DeliveredTopics(s: HealthSettings, since: seq<Event>, deadline: real): set<string> {
    set i | 0 <= i < |since| && Delivered(s, since[i], deadline) :: since[i].topic
  }

  /** The message a delivered event carries was handled, by topic and identity, by the deadline. */
  ghost predicate HandledIn(s: HealthSettings, since: seq<Event>, topic: string, identity: int, deadline: real) {
    exists j :: 0 <= j < |since| && Handled(s, since[j], deadline) && since[j].topic == topic
        && since[j].identity == Some(identity)
  }

  ghost predicate DeliveredIn(s: HealthSettings, since: seq<Event>, topic: string, identity: int, deadline: real) {
    exists j :: 0 <= j < |since| && Delivered(s, since[j], deadline) && since[j].topic == topic
        && since[j].identity == Some(identity)
  }

  ghost predicate DeliveredUnmatched(s: HealthSettings, since: seq<Event>, topic: string, deadline: real) {
    exists j :: 0 <= j < |since| && Delivered(s, since[j], deadline) && since[j].topic == topic
        && since[j].identity.None?
  }

  ghost predicate RepliedIn(since: seq<Event>, p: PendingProbe, answer: HealthReply) {
    exists j :: 0 <= j < |since| && since[j].ReplyMessage? && since[j].reply == Some(answer)
                && since[j].now <= p.deadlineAt && answer.requestId == p.requestId
  }

  /** A consumer probe holds exactly the keys of the unit messages since it started. */
  ghost predicate EvidenceMatches(s: HealthSettings, since: seq<Event>, p: PendingProbe, serial: nat) {
    var d := p.deadlineAt;
    && (forall t, i {:trigger MessageKey(t, Stamped(i))} ::
        MessageKey(t, Stamped(i)) in p.rawMessages <==> DeliveredIn(s, since, t, i, d))
    && (forall t, i {:trigger MessageKey(t, Stamped(i))} ::
        MessageKey(t, Stamped(i)) in p.processedMessages <==> HandledIn(s, since, t, i, d))
    && (forall t, n: nat {:trigger MessageKey(t, Unmatched(n))} :: MessageKey(t, Unmatched(n)) in p.rawMessages ==>
          n < serial && MessageKey(t, Unmatched(n)) !in p.processedMessages && DeliveredUnmatched(s, since, t, d))
    && (forall t, n: nat {:trigger MessageKey(t, Unmatched(n))} ::
          MessageKey(t, Unmatched(n)) in p.processedMessages ==> n < serial)
    && (forall t :: DeliveredUnmatched(s, since, t, d) ==> HasUnmatched(p, t))
  }

  ghost predicate HasUnmatched(p: PendingProbe, topic: string) {
    exists n: nat :: MessageKey(topic, Unmatched(n)) in p.rawMessages
  }

  /** The start, the reply and the live bridge agree on the instance wherever they are known. */
  ghost predicate InstancesAgree(p: PendingProbe, live: Option<string>) {
    && (p.instanceId.Some? ==> p.instanceId == live)
    && (p.reply.Some? && live.Some? ==> p.reply.value.instanceId == live.value)
  }

  ghost predicate PendingInv(s: HealthSettings, since: seq<Event>, o: Observer)
    requires o.probes.pending.Some?
  {
    var p := o.probes.pending.value;
    && p.deadlineAt == p.sentAt + s.probeDeadline
    && InstancesAgree(p, o.bridge.InstanceId())
    && (p.reply.Some? ==>
          RepliedIn(since, p, p.reply.value) && p.reply.value.result == RESULT_OK && p.kind == CONSUMER
              && p.Units() != 0)
    && (p.kind == CONSUMER ==> EvidenceMatches(s, since, p, o.probes.serial))
  }

  ghost predicate Inv(s: HealthSettings, w: World) {
    && w.started == w.finished + (if w.observer.probes.pending.Some? then 1 else 0)
    && (w.observer.probes.pending.Some? ==> PendingInv(s, w.since, w.observer))
  }

  // ---- Evidence grows one call at a time -----------------------------------

  /** The tracker with what a call adds to the pending probe, before anything is judged. */
  ghost function Gathered(s: HealthSettings, o: Observer, e: Event): Tracker
    requires o.probes.pending.Some?
  {
    match e
    case ReplyMessage(reply, now) =>
      if reply.Some? && o.probes.pending.value.Matches(reply.value, now, o.bridge.InstanceId())
      then o.probes.WithReply(reply.value) else o.probes
    case RawUnit(topic, empty, identity, now) =>
      if !empty && IsUnitEventTopic(topic, s.eventPrefix) && o.probes.Collecting(now)
      then o.probes.WithRaw(o.probes.KeyOf(topic, identity)) else o.probes
    case ProcessedUnit(topic, identity, now) =>
      if IsUnitEventTopic(topic, s.eventPrefix) && o.probes.Collecting(now)
      then o.probes.WithProcessed(o.probes.KeyOf(topic, identity)) else o.probes
    case _ => o.probes
  }

  lemma EvidenceExtends(s: HealthSettings, since: seq<Event>, e: Event, d: real)
    ensures forall t, i :: DeliveredIn(s, since + [e], t, i, d) <==>
              DeliveredIn(s, since, t, i, d) || (Delivered(s, e, d) && e.topic == t && e.identity == Some(i))
    ensures forall t, i :: HandledIn(s, since + [e], t, i, d) <==>
              HandledIn(s, since, t, i, d) || (Handled(s, e, d) && e.topic == t && e.identity == Some(i))
    ensures forall t :: DeliveredUnmatched(s, since + [e], t, d) <==>
              DeliveredUnmatched(s, since, t, d) || (Delivered(s, e, d) && e.topic == t && e.identity.None?)
  {
    var more := since + [e];
    assert more[|since|] == e && forall j :: 0 <= j < |since| ==> more[j] == since[j];
    forall t, i ensures DeliveredIn(s, more, t, i, d) <==>
        DeliveredIn(s, since, t, i, d) || (Delivered(s, e, d) && e.topic == t && e.identity == Some(i)) {
      if DeliveredIn(s, since, t, i, d) {
        var j :| 0 <= j < |since| && Delivered(s, since[j], d) && since[j].topic == t && since[j].identity == Some(i);
        assert more[j] == since[j];
      }
    }
    forall t, i ensures HandledIn(s, more, t, i, d) <==>
        HandledIn(s, since, t, i, d) || (Handled(s, e, d) && e.topic == t && e.identity == Some(i)) {
      if HandledIn(s, since, t, i, d) {
        var j :| 0 <= j < |since| && Handled(s, since[j], d) && since[j].topic == t && since[j].identity == Some(i);
        assert more[j] == since[j];
      }
    }
    forall t ensures DeliveredUnmatched(s, more, t, d) <==>
        DeliveredUnmatched(s, since, t, d) || (Delivered(s, e, d) && e.topic == t && e.identity.None?) {
      if DeliveredUnmatched(s, since, t, d) {
        var j :| 0 <= j < |since| && Delivered(s, since[j], d) && since[j].topic == t && since[j].identity.None?;
        assert more[j] == since[j];
      }
    }
  }

  lemma GatherKeepsEvidence(s: HealthSettings, since: seq<Event>, o: Observer, e: Event)
    requires o.probes.pending.Some? && o.probes.pending.value.kind == CONSUMER
    requires EvidenceMatches(s, since, o.probes.pending.value, o.probes.serial)
    ensures Gathered(s, o, e).pending.Some?
    ensures EvidenceMatches(s, since + [e], Gathered(s, o, e).pending.value, Gathered(s, o, e).serial)
  {
    var p, g := o.probes.pending.value, Gathered(s, o, e);
    var q := g.pending.value;
    EvidenceExtends(s, since, e, p.deadlineAt);
    if Delivered(s, e, p.deadlineAt) {
      var key := o.probes.KeyOf(e.topic, e.identity);
      assert q.rawMessages == p.rawMessages + {key} && q.processedMessages == p.processedMessages;
      if e.identity.None? {
        assert MessageKey(e.topic, Unmatched(o.probes.serial)) in q.rawMessages;
      }
    } else if Handled(s, e, p.deadlineAt) {
      assert q.processedMessages == p.processedMessages + {o.probes.KeyOf(e.topic, e.identity)}
          && q.rawMessages == p.rawMessages;
    } else {
      assert q.rawMessages == p.rawMessages && q.processedMessages == p.processedMessages;
    }
    forall t | DeliveredUnmatched(s, since + [e], t, p.deadlineAt) ensures HasUnmatched(q, t) {
      if DeliveredUnmatched(s, since, t, p.deadlineAt) {
        var n: nat :| MessageKey(t, Unmatched(n)) in p.rawMessages;
        assert MessageKey(t, Unmatched(n)) in q.rawMessages;
      }
    }
  }

  lemma RawTopicsAreDelivered(s: HealthSettings, since: seq<Event>, p: PendingProbe, serial: nat)
    requires EvidenceMatches(s, since, p, serial)
    ensures p.RawTopics() == DeliveredTopics(s, since, p.deadlineAt)
  {
    var d := p.deadlineAt;
    forall t | t in p.RawTopics() ensures t in DeliveredTopics(s, since, d) {
      var m :| m in p.rawMessages && m.topic == t;
      match m.id {
        case Stamped(i) => assert m == MessageKey(t, Stamped(i)); assert DeliveredIn(s, since, t, i, d);
        case Unmatched(n) => assert m == MessageKey(t, Unmatched(n)); assert DeliveredUnmatched(s, since, t, d);
      }
    }
    forall t | t in DeliveredTopics(s, since, d) ensures t in p.RawTopics() {
      var j :| 0 <= j < |since| && Delivered(s, since[j], d) && since[j].topic == t;
      match since[j].identity {
        case Some(i) => assert DeliveredIn(s, since, t, i, d); assert MessageKey(t, Stamped(i)) in p.rawMessages;
        case None => assert DeliveredUnmatched(s, since, t, d); assert HasUnmatched(p, t);
      }
    }
  }

  lemma StartHasNoEvidence(s: HealthSettings, o: Observer, kind: ProbeKind, token: string, now: real)
    requires o.probes.pending.None?
    ensures PendingInv(s, [], o.StartProbe(s, kind, token, now))
  {
  }

  lemma RepliedStays(since: seq<Event>, e: Event, p: PendingProbe, answer: HealthReply)
    requires RepliedIn(since, p, answer)
    ensures RepliedIn(since + [e], p, answer)
  {
    var j :| 0 <= j < |since| && since[j].ReplyMessage? && since[j].reply == Some(answer)
             && since[j].now <= p.deadlineAt && answer.requestId == p.requestId;
    assert (since + [e])[j] == since[j];
  }

  /** The evidence a call leaves behind, for the probe that was pending before it. */
  ghost predicate EvidenceInv(s: HealthSettings, since: seq<Event>, p: PendingProbe, serial: nat) {
    && p.deadlineAt == p.sentAt + s.probeDeadline
    && (p.reply.Some? ==> RepliedIn(since, p, p.reply.value))
    && (p.kind == CONSUMER ==> EvidenceMatches(s, since, p, serial))
  }

  lemma GatherKeepsEvidenceInv(s: HealthSettings, since: seq<Event>, o: Observer, e: Event)
    requires o.probes.pending.Some? && PendingInv(s, since, o)
    ensures Gathered(s, o, e).pending.Some?
    ensures EvidenceInv(s, since + [e], Gathered(s, o, e).pending.value, Gathered(s, o, e).serial)
  {
    var p := o.probes.pending.value;
    if p.kind == CONSUMER {
      GatherKeepsEvidence(s, since, o, e);
    }
    if p.reply.Some? {
      RepliedStays(since, e, p, p.reply.value);
    } else if e.ReplyMessage? && e.reply.Some? && p.Matches(e.reply.value, e.now, o.bridge.InstanceId()) {
      assert (since + [e])[|since|] == e;
      var q := Gathered(s, o, e).pending.value;
      assert RepliedIn(since + [e], q, q.reply.value);
    }
  }

  // ---- Every run ----------------------------------------------------------

  /** How a call ended the pending probe: the gathered probe, judged once. */
  ghost predicate EndedAs(s: HealthSettings, o: Observer, e: Event, r: ProbeResult)
    requires o.probes.pending.Some?
  {
    var q := Gathered(s, o, e).pending;
    && q.Some? && r == ResultOf(q.value, r.outcome, e.Time())
    && match r.outcome
       case SUPERSEDED => e.StatusMessage?
       case OK =>
         && e.Time() <= q.value.deadlineAt && (q.value.kind == STATUS || q.value.Certified()) && q.value.reply.Some?
         && (e.ReplyMessage? ==> q.value.reply.value.result == RESULT_OK)
       case BRIDGE_BUSY => e.ReplyMessage?
       case BRIDGE_FAILED => e.ReplyMessage?
       case NO_UNITS => e.ReplyMessage?
       case _ => e.Time() > q.value.deadlineAt && r.outcome == q.value.Verdict()
  }

  /** A probe judged against the clock ends certified in time, or with its verdict too late. */
  lemma JudgedProbe(t: Tracker, now: real)
    requires t.Check(now).1.Some?
    ensures t.pending.Some?
    ensures var (q, r) := (t.pending.value, t.Check(now).1.value);
            && r == ResultOf(q, r.outcome, now)
            && (r.outcome == OK ==> now <= q.deadlineAt && q.Certified() && q.reply.Some?)
            && (r.outcome != OK ==> now > q.deadlineAt && r.outcome == q.Verdict())
            && r.outcome !in {SUPERSEDED, BRIDGE_BUSY, BRIDGE_FAILED, NO_UNITS}
  {
  }

  lemma ResultsComeFromThePendingProbe(s: HealthSettings, startedAt: real, o: Observer, e: Event)
    requires o.Step(s, startedAt, e).1.Some?
    ensures o.probes.pending.Some? && EndedAs(s, o, e, o.Step(s, startedAt, e).1.value)
  {
    match e {
      case RawUnit(_, _, _, _) => UnitResult(s, startedAt, o, e);
      case ProcessedUnit(_, _, _) => UnitResult(s, startedAt, o, e);
      case ReplyMessage(_, _) => ReplyResult(s, startedAt, o, e);
      case _ => OtherResult(s, startedAt, o, e);
    }
  }

  lemma UnitResult(s: HealthSettings, startedAt: real, o: Observer, e: Event)
    requires (e.RawUnit? || e.ProcessedUnit?) && o.Step(s, startedAt, e).1.Some?
    ensures o.probes.pending.Some? && EndedAs(s, o, e, o.Step(s, startedAt, e).1.value)
  {
    assert o.probes.pending.Some?;
    JudgedProbe(Gathered(s, o, e), e.now);
  }

  lemma OtherResult(s: HealthSettings, startedAt: real, o: Observer, e: Event)
    requires !e.RawUnit? && !e.ProcessedUnit? && !e.ReplyMessage? && o.Step(s, startedAt, e).1.Some?
    ensures o.probes.pending.Some? && EndedAs(s, o, e, o.Step(s, startedAt, e).1.value)
  {
    if e.Tick? {
      JudgedProbe(o.probes, e.now);
    }
  }

  lemma ReplyResult(s: HealthSettings, startedAt: real, o: Observer, e: Event)
    requires e.ReplyMessage? && o.Step(s, startedAt, e).1.Some?
    ensures o.probes.pending.Some? && EndedAs(s, o, e, o.Step(s, startedAt, e).1.value)
  {
    var r := o.Step(s, startedAt, e).1.value;
    var q := Gathered(s, o, e).pending.value;
    assert q == o.probes.WithReply(e.reply.value).pending.value;
    assert r == ResultOf(q, r.outcome, e.now) && q.Settled(e.now) == Some(r.outcome);
  }

  lemma StepKeepsInv(s: HealthSettings, startedAt: real, w: World, e: Event)
    requires Inv(s, w)
    ensures Inv(s, Advance(s, startedAt, w, e))
  {
    var o := w.observer;
    var (next, result) := o.Step(s, startedAt, e);
    if o.probes.pending.Some? {
      GatherKeepsEvidenceInv(s, w.since, o, e);
    }
    if next.probes.pending.Some? {
      if Began(o, next, result) {
        StartKeepsInv(s, startedAt, w, e);
      } else {
        KeptProbeKeepsInv(s, startedAt, w, e);
      }
    }
  }

  lemma StartKeepsInv(s: HealthSettings, startedAt: real, w: World, e: Event)
    requires Inv(s, w)
    requires Began(w.observer, w.observer.Step(s, startedAt, e).0, w.observer.Step(s, startedAt, e).1)
    ensures PendingInv(s, [], w.observer.Step(s, startedAt, e).0)
  {
    var o := w.observer;
    match e {
      case Tick(consumerReady, token, now) =>
        var checked := o.Publish(o.probes.Check(now)).0;
        StartHasNoEvidence(s, checked, checked.Due(s, startedAt, consumerReady, now).value, token, now);
      case RequestProbe(kind, token, now) =>
        StartHasNoEvidence(s, o, kind, token, now);
      case _ =>
    }
  }

  lemma KeptProbeKeepsInv(s: HealthSettings, startedAt: real, w: World, e: Event)
    requires Inv(s, w) && w.observer.probes.pending.Some?
    requires var (next, result) := w.observer.Step(s, startedAt, e);
             next.probes.pending.Some? && !Began(w.observer, next, result)
    ensures PendingInv(s, w.since + [e], w.observer.Step(s, startedAt, e).0)
  {
    KeptProbeIsGathered(s, startedAt, w.observer, e);
    GatherKeepsEvidenceInv(s, w.since, w.observer, e);
  }

  lemma KeptProbeIsGathered(s: HealthSettings, startedAt: real, o: Observer, e: Event)
    requires o.probes.pending.Some?
    requires var (next, result) := o.Step(s, startedAt, e); next.probes.pending.Some? && !Began(o, next, result)
    ensures var next := o.Step(s, startedAt, e).0;
            next.probes.pending == Gathered(s, o, e).pending && next.probes.serial == Gathered(s, o, e).serial
  {
  }

  lemma {:induction false} RunKeepsInv(s: HealthSettings, startedAt: real, events: seq<Event>)
    ensures Inv(s, Run(s, startedAt, events))
  {
    if events != [] {
      RunKeepsInv(s, startedAt, events[..|events| - 1]);
      StepKeepsInv(s, startedAt, Run(s, startedAt, events[..|events| - 1]), events[|events| - 1]);
    }
  }

  /** The call asked for this probe: under this identity, at this time, of the instance live then. */
  ghost predicate StartedBy(s: HealthSettings, o: Observer, e: Event, p: PendingProbe) {
    && (e.Tick? || e.RequestProbe?)
    && p.requestId == e.token && (e.RequestProbe? ==> p.kind == e.kind)
    && p.sentAt == e.now && p.deadlineAt == e.now + s.probeDeadline && p.instanceId == o.bridge.InstanceId()
  }

  /** Two states of one probe. */
  ghost predicate SameProbe(p: PendingProbe, q: PendingProbe) {
    && p.kind == q.kind && p.requestId == q.requestId && p.sentAt == q.sentAt
    && p.deadlineAt == q.deadlineAt && p.instanceId == q.instanceId
  }

  /** `since` is the run itself, from just after the call that started the pending probe. */
  lemma {:induction false} EvidenceStartsWithTheProbe(s: HealthSettings, startedAt: real, events: seq<Event>)
      returns (k: nat)
    requires Run(s, startedAt, events).observer.probes.pending.Some?
    ensures k < |events| && Run(s, startedAt, events).since == events[k + 1..]
    ensures StartedBy(s, Run(s, startedAt, events[..k]).observer, events[k],
                      Run(s, startedAt, events).observer.probes.pending.value)
  {
    var n := |events| - 1;
    var w, e := Run(s, startedAt, events[..n]), events[n];
    AdvanceStartsOrExtends(s, startedAt, w, e);
    if Advance(s, startedAt, w, e).since == [] {
      k := n;
    } else {
      k := EvidenceStartsWithTheProbe(s, startedAt, events[..n]);
      assert events[..n][..k] == events[..k];
      assert events[k + 1..] == events[..n][k + 1..] + [e];
    }
  }

  /** A call that leaves a probe pending either started it or added itself to its evidence. */
  lemma AdvanceStartsOrExtends(s: HealthSettings, startedAt: real, w: World, e: Event)
    requires Advance(s, startedAt, w, e).observer.probes.pending.Some?
    ensures var w' := Advance(s, startedAt, w, e);
            if w'.since == [] then
              StartedBy(s, w.observer, e, w'.observer.probes.pending.value) && w'.started == w.started + 1
            else
              && w'.since == w.since + [e] && w'.started == w.started && w.observer.probes.pending.Some?
              && SameProbe(w'.observer.probes.pending.value, w.observer.probes.pending.value)
  {
    var (next, result) := w.observer.Step(s, startedAt, e);
    if Began(w.observer, next, result) {
      BegunProbeIsNew(s, startedAt, w.observer, e);
    } else {
      KeptProbeIsTheSame(s, startedAt, w.observer, e);
    }
  }

  lemma BegunProbeIsNew(s: HealthSettings, startedAt: real, o: Observer, e: Event)
    requires Began(o, o.Step(s, startedAt, e).0, o.Step(s, startedAt, e).1)
    ensures StartedBy(s, o, e, o.Step(s, startedAt, e).0.probes.pending.value)
  {
  }

  lemma KeptProbeIsTheSame(s: HealthSettings, startedAt: real, o: Observer, e: Event)
    requires var (next, result) := o.Step(s, startedAt, e);
             next.probes.pending.Some? && !Began(o, next, result)
    ensures o.probes.pending.Some?
    ensures SameProbe(o.Step(s, startedAt, e).0.probes.pending.value, o.probes.pending.value)
  {
  }

  // ---- What results prove -------------------------------------------------

  /** The reply a verdict rests on: this probe's own, `ok`, in time, confirming some units. */
  ghost predicate OwnOkReply(since: seq<Event>, p: PendingProbe, live: Option<string>, answer: HealthReply) {
    && RepliedIn(since, p, answer)
    && answer.result == RESULT_OK
    && answer.counters.Some? && answer.counters.value.units > 0
    && (p.instanceId.Some? ==> p.instanceId == live)
    && (live.Some? ==> answer.instanceId == live.value)
  }

  /** The gathered probe differs from the pending one only in what this call added. */
  lemma GatheredAgrees(s: HealthSettings, since: seq<Event>, o: Observer, e: Event)
    requires o.probes.pending.Some? && PendingInv(s, since, o)
    ensures var p, q := o.probes.pending.value, Gathered(s, o, e).pending.value;
            && q.kind == p.kind && q.requestId == p.requestId && q.sentAt == p.sentAt
            && q.deadlineAt == p.deadlineAt && q.instanceId == p.instanceId
            && InstancesAgree(q, o.bridge.InstanceId())
            && (!e.ReplyMessage? || e.now > p.deadlineAt ==> q.reply == p.reply)
            && (q.reply.Some? ==> q.reply == p.reply || e.ReplyMessage?)
  {
  }

  /** A delivered message without an identity keeps the probe from ever being certified. */
  lemma UnmatchedIsNeverHandled(s: HealthSettings, since: seq<Event>, q: PendingProbe, serial: nat, j: nat)
    requires EvidenceMatches(s, since, q, serial)
    requires j < |since| && Delivered(s, since[j], q.deadlineAt) && since[j].identity.None?
    ensures !q.AllHandled()
  {
    assert DeliveredUnmatched(s, since, since[j].topic, q.deadlineAt) && HasUnmatched(q, since[j].topic);
    var n: nat :| MessageKey(since[j].topic, Unmatched(n)) in q.rawMessages;
    assert MessageKey(since[j].topic, Unmatched(n)) !in q.processedMessages;
  }

  /** Every delivered unit message was handled, for a probe that holds the evidence and is certified. */
  lemma CertifiedMeansHandled(s: HealthSettings, since: seq<Event>, q: PendingProbe, serial: nat, j: nat)
    requires EvidenceMatches(s, since, q, serial) && q.Certified()
    requires j < |since| && Delivered(s, since[j], q.deadlineAt)
    ensures since[j].identity.Some? && HandledIn(s, since, since[j].topic, since[j].identity.value, q.deadlineAt)
  {
    var t := since[j].topic;
    match since[j].identity {
      case Some(i) =>
        assert DeliveredIn(s, since, t, i, q.deadlineAt);
        assert MessageKey(t, Stamped(i)) in q.processedMessages;
      case None =>
        UnmatchedIsNeverHandled(s, since, q, serial, j);
    }
  }

  /**
   * Consumer-probe soundness. Whatever happened before, an OK consumer result comes no later
   * than the deadline; it rests on the probe's own `ok` reply, with the instance at the
   * start, of the reply and live now in agreement wherever known; at least as many distinct
   * unit topics arrived as that reply confirmed; and every unit message that arrived since
   * the probe started carried an identity and was handled under that same topic and identity.
   */
  lemma {:induction false} OkIsSound(s: HealthSettings, startedAt: real, events: seq<Event>, e: Event)
    requires var r := Run(s, startedAt, events).observer.Step(s, startedAt, e).1;
             r.Some? && r.value.kind == CONSUMER && r.value.outcome == OK
    ensures var w := Run(s, startedAt, events);
            && w.observer.probes.pending.Some?
            && var p, since := w.observer.probes.pending.value, w.since + [e];
               && e.Time() <= p.deadlineAt == p.sentAt + s.probeDeadline
               && (exists answer :: OwnOkReply(since, p, w.observer.bridge.InstanceId(), answer)
                     && answer.counters.value.units <= |DeliveredTopics(s, since, p.deadlineAt)|)
               && (forall j :: 0 <= j < |since| && Delivered(s, since[j], p.deadlineAt) ==>
                     since[j].identity.Some?
                     && HandledIn(s, since, since[j].topic, since[j].identity.value, p.deadlineAt))
  {
    var w := Run(s, startedAt, events);
    RunKeepsInv(s, startedAt, events);
    ResultsComeFromThePendingProbe(s, startedAt, w.observer, e);
    OkRestsOnEvidence(s, w.since, w.observer, e, w.observer.Step(s, startedAt, e).1.value);
  }

  lemma OkRestsOnEvidence(s: HealthSettings, before: seq<Event>, o: Observer, e: Event, r: ProbeResult)
    requires o.probes.pending.Some? && PendingInv(s, before, o)
    requires EndedAs(s, o, e, r) && r.kind == CONSUMER && r.outcome == OK
    ensures var p, since := o.probes.pending.value, before + [e];
            && e.Time() <= p.deadlineAt == p.sentAt + s.probeDeadline
            && (exists answer :: OwnOkReply(since, p, o.bridge.InstanceId(), answer)
                  && answer.counters.value.units <= |DeliveredTopics(s, since, p.deadlineAt)|)
            && (forall j :: 0 <= j < |since| && Delivered(s, since[j], p.deadlineAt) ==>
                  since[j].identity.Some?
                  && HandledIn(s, since, since[j].topic, since[j].identity.value, p.deadlineAt))
  {
    var since := before + [e];
    var g := Gathered(s, o, e);
    var q := g.pending.value;
    GatherKeepsEvidenceInv(s, before, o, e);
    GatheredAgrees(s, before, o, e);
    RawTopicsAreDelivered(s, since, q, g.serial);
    assert OwnOkReply(since, o.probes.pending.value, o.bridge.InstanceId(), q.reply.value);
    forall j | 0 <= j < |since| && Delivered(s, since[j], q.deadlineAt)
      ensures since[j].identity.Some? && HandledIn(s, since, since[j].topic, since[j].identity.value, q.deadlineAt)
    {
      CertifiedMeansHandled(s, since, q, g.serial, j);
    }
  }

  /**
   * A stale verdict blames the consumer only on full evidence: an accepted `ok` reply with at
   * least one unit, that many distinct topics delivered by the deadline, and not one
   * delivered message handled by it.
   */
  lemma {:induction false} StaleIsSound(s: HealthSettings, startedAt: real, events: seq<Event>, e: Event)
    requires var r := Run(s, startedAt, events).observer.Step(s, startedAt, e).1;
             r.Some? && r.value.outcome == CONSUMER_STALE
    ensures var w := Run(s, startedAt, events);
            && w.observer.probes.pending.Some?
            && var p, since := w.observer.probes.pending.value, w.since + [e];
               && p.kind == CONSUMER && e.Time() > p.deadlineAt
               && (exists answer :: OwnOkReply(since, p, w.observer.bridge.InstanceId(), answer)
                     && answer.counters.value.units <= |DeliveredTopics(s, since, p.deadlineAt)|)
               && (forall t, i ::
                     DeliveredIn(s, since, t, i, p.deadlineAt) ==> !HandledIn(s, since, t, i, p.deadlineAt))
  {
    var w := Run(s, startedAt, events);
    RunKeepsInv(s, startedAt, events);
    ResultsComeFromThePendingProbe(s, startedAt, w.observer, e);
    StaleRestsOnEvidence(s, w.since, w.observer, e, w.observer.Step(s, startedAt, e).1.value);
  }

  lemma StaleRestsOnEvidence(s: HealthSettings, before: seq<Event>, o: Observer, e: Event, r: ProbeResult)
    requires o.probes.pending.Some? && PendingInv(s, before, o)
    requires EndedAs(s, o, e, r) && r.outcome == CONSUMER_STALE
    ensures var p, since := o.probes.pending.value, before + [e];
            && p.kind == CONSUMER && e.Time() > p.deadlineAt
            && (exists answer :: OwnOkReply(since, p, o.bridge.InstanceId(), answer)
                  && answer.counters.value.units <= |DeliveredTopics(s, since, p.deadlineAt)|)
            && (forall t, i :: DeliveredIn(s, since, t, i, p.deadlineAt) ==> !HandledIn(s, since, t, i, p.deadlineAt))
  {
    var since := before + [e];
    var g := Gathered(s, o, e);
    var q := g.pending.value;
    GatherKeepsEvidenceInv(s, before, o, e);
    GatheredAgrees(s, before, o, e);
    RawTopicsAreDelivered(s, since, q, g.serial);
    assert OwnOkReply(since, o.probes.pending.value, o.bridge.InstanceId(), q.reply.value);
    forall t, i | DeliveredIn(s, since, t, i, q.deadlineAt) ensures !HandledIn(s, since, t, i, q.deadlineAt) {
      var key := MessageKey(t, Stamped(i));
      assert key !in q.rawMessages * q.processedMessages;
    }
  }

  /** Every probe that ever started has exactly one result, except the one still pending. */
  lemma {:induction false} EveryProbeEndsOnce(s: HealthSettings, startedAt: real, events: seq<Event>)
    ensures var w := Run(s, startedAt, events);
            w.started == w.finished + (if w.observer.probes.pending.Some? then 1 else 0)
  {
    RunKeepsInv(s, startedAt, events);
  }

  // ---- The class ----------------------------------------------------------

  class HealthObserver {
    const settings: HealthSettings
    const startedAt: real
    const bridge: StatusTracker.BridgeStatusTracker
    const probes: ProbeTracker
    var nextDue: DueTimes
    var lastResult: map<ProbeKind, ProbeResult>
    var lastOk: map<ProbeKind, real>
    var rawCount: nat
    var processedCount: nat

    predicate Valid()
      reads this, bridge, probes
    {
      && bridge.Valid() && bridge.settings == settings.tracker && bridge.startedAt == startedAt
      && probes.deadlineSeconds == settings.probeDeadline
    }

    function View(): Observer
      reads this, bridge, probes
    {
      Observer(bridge.View(), probes.View(), nextDue, lastResult, lastOk)
    }

    constructor (settings: HealthSettings, now: real)
      ensures Valid() && View() == NewObserver(settings, now)
      ensures fresh(bridge) && fresh(probes) && this.settings == settings && startedAt == now
    {
      this.settings := settings;
      startedAt := now;
      bridge := new StatusTracker.BridgeStatusTracker(settings.tracker, now);
      probes := new ProbeTracker(settings.probeDeadline);
      nextDue := DueTimes(now + settings.tracker.startupGraceSeconds, now + settings.tracker.startupGraceSeconds);
      lastResult, lastOk := map[], map[];
      rawCount, processedCount := 0, 0;
    }

    /** _publish_result: remember the newest result of its kind, and the newest success. */
    method PublishResult(result: Option<ProbeResult>)
      modifies this`lastResult, this`lastOk
      ensures result.None? ==> lastResult == old(lastResult) && lastOk == old(lastOk)
      ensures result.Some? ==>
                && lastResult == old(lastResult)[result.value.kind := result.value]
                && lastOk == if result.value.outcome == OK
                    then old(lastOk)[result.value.kind := result.value.finishedAt]
                             else old(lastOk)
    {
      if result.None? {
        return;
      }
      lastResult := lastResult[result.value.kind := result.value];
      if result.value.outcome == OK {
        lastOk := lastOk[result.value.kind := result.value.finishedAt];
      }
    }

    /** bridge_state. */
    method BridgeState(now: real) returns (state: StatusTracker.BridgeState)
      requires Valid()
      ensures state == View().BridgeState(settings, startedAt, now)
    {
      state := bridge.Evaluate(now);
      if state == StatusTracker.UNKNOWN && STATUS in lastResult && lastResult[STATUS].outcome == NO_REPLY
         && STATUS !in lastOk
      {
        state := StatusTracker.UNSUPPORTED;
      }
    }

    method OnStatus(payload: Document, retain: bool, now: real) returns (result: Option<ProbeResult>)
      requires Valid()
      modifies this, bridge, probes
      ensures Valid()
      ensures (View(), result) ==
              old(View()).Step(settings, startedAt,
                               StatusMessage(StatusTracker.Delivery(StatusTracker.ReadPayload(payload), retain, now)))
    {
      result := None;
      var accepted := bridge.OnMessage(payload, retain, now);
      if accepted {
        result := probes.Supersede(now, bridge.View().InstanceId());
        PublishResult(result);
      }
    }

    method OnReply(payload: Document, now: real) returns (result: Option<ProbeResult>)
      requires Valid()
      modifies this, probes
      ensures Valid()
      ensures (View(), result) == old(View()).Step(settings, startedAt, ReplyMessage(ParseReply(payload), now))
    {
      result := probes.OnReply(ParseReply(payload), now, bridge.View().InstanceId());
      PublishResult(result);
    }

    method OnRawUnit(topic: string, empty: bool, identity: Option<int>, now: real) returns (result: Option<ProbeResult>)
      requires Valid()
      modifies this, probes
      ensures Valid()
      ensures (View(), result) == old(View()).Step(settings, startedAt, RawUnit(topic, empty, identity, now))
    {
      if empty || !IsUnitEventTopic(topic, settings.eventPrefix) {
        return None;
      }
      rawCount := rawCount + 1;
      result := probes.RecordRaw(topic, now, identity);
      PublishResult(result);
    }

    method OnProcessedUnit(topic: string, identity: Option<int>, now: real) returns (result: Option<ProbeResult>)
      requires Valid()
      modifies this, probes
      ensures Valid()
      ensures (View(), result) == old(View()).Step(settings, startedAt, ProcessedUnit(topic, identity, now))
    {
      if !IsUnitEventTopic(topic, settings.eventPrefix) {
        return None;
      }
      processedCount := processedCount + 1;
      result := probes.RecordProcessed(topic, now, identity);
      PublishResult(result);
    }

    /** tick: expire the pending probe, then start the most overdue probe that may run. */
    method Tick(consumerReady: bool, token: string, now: real)
      returns (started: Option<PendingProbe>, result: Option<ProbeResult>)
      requires Valid()
      modifies this, probes
      ensures Valid()
      ensures (View(), result) == old(View()).Step(settings, startedAt, Event.Tick(consumerReady, token, now))
      ensures started.Some? ==> probes.pending == started
    {
      result := probes.Check(now);
      PublishResult(result);
      started := None;
      if probes.pending.Some? {
        return;
      }
      var kinds := if nextDue.consumer < nextDue.status then [CONSUMER, STATUS] else [STATUS, CONSUMER];
      ghost var checked := View();
      var i := 0;
      while i < 2
        invariant 0 <= i <= 2
        invariant View() == checked && probes.pending.None? && started.None?
        invariant forall j :: 0 <= j < i ==> !checked.Eligible(settings, startedAt, kinds[j], consumerReady, now)
      {
        var kind := kinds[i];
        if now >= nextDue.At(kind)
           && !(kind == CONSUMER && (bridge.Evaluate(now) != StatusTracker.HEALTHY || !consumerReady)) {
          assert checked.Eligible(settings, startedAt, kind, consumerReady, now);
          assert i == 1 ==> !checked.Eligible(settings, startedAt, kinds[0], consumerReady, now);
          assert checked.Due(settings, startedAt, consumerReady, now) == Some(kind);
          started := StartProbe(kind, token, now);
          return;
        }
        i := i + 1;
      }
      assert checked.Due(settings, startedAt, consumerReady, now).None? by {
        assert !checked.Eligible(settings, startedAt, kinds[0], consumerReady, now);
        assert !checked.Eligible(settings, startedAt, kinds[1], consumerReady, now);
      }
    }

    method Schedule(kind: ProbeKind, delay: real, now: real)
      requires Valid()
      modifies this`nextDue
      ensures Valid()
      ensures (View(), None) == old(View()).Step(settings, startedAt, Event.Schedule(kind, delay, now))
    {
      nextDue := nextDue.With(kind, now + delay);
    }

    method StartProbe(kind: ProbeKind, token: string, now: real) returns (started: Option<PendingProbe>)
      requires Valid()
      modifies this`nextDue, probes
      ensures Valid()
      ensures View() == old(View()).StartProbe(settings, kind, token, now)
      ensures started.Some? ==> probes.pending == started
    {
      started := probes.Start(kind, token, now, bridge.View().InstanceId());
      if started.Some? {
        var interval := if kind == CONSUMER then settings.consumerProbeInterval else settings.probeInterval;
        nextDue := nextDue.With(kind, now + interval);
      }
    }
  }
}
