/**
 * What the outcome of a probe says about the calls that were made while it was pending.
 *
 * The evidence is read off those calls: the first reply that was the probe's own, the unit
 * messages delivered by the deadline, and which of them were handled by it. Each outcome is
 * given exactly by that evidence, whatever the tracker keeps.
 */
module ProbeVerdicts {
  import opened Basics
  import opened HealthProtocol
  import opened Probes
  import opened HealthObserver

  // ---- Evidence -----------------------------------------------------------

  /**
   * An event is a reply to the request: it carries the request's identity, it is of the type
   * asked for, it comes by the deadline, and from the instance that is live if one is known.
   */
  ghost predicate Answers(kind: ProbeKind, requestId: string, deadline: real, e: Event, live: Option<string>) {
    && e.ReplyMessage? && e.reply.Some?
    && e.reply.value.requestId == requestId
    && e.reply.value.kind == (if kind.STATUS? then "status" else "snapshot")
    && e.now <= deadline
    && (live.Some? ==> e.reply.value.instanceId == live.value)
  }

  /** The first answer among the calls, each of which found the instance `lives` says. */
  ghost function FirstAnswer(kind: ProbeKind, requestId: string, deadline: real, since: seq<Event>,
      lives: seq<Option<string>>): Option<HealthReply>
    requires |lives| == |since|
  {
    if since == [] then None
    else
      var n := |since| - 1;
      var before := FirstAnswer(kind, requestId, deadline, since[..n], lives[..n]);
      if before.None? && Answers(kind, requestId, deadline, since[n], lives[n]) then since[n].reply else before
  }

  /** The units a reply says the bridge published. */
  ghost function UnitsIn(answer: Option<HealthReply>): nat {
    if answer.Some? && answer.value.counters.Some? then answer.value.counters.value.units else 0
  }

  /** Every unit message delivered by the deadline was handled by it, under its topic and identity. */
  ghost predicate EveryMessageHandled(s: HealthSettings, since: seq<Event>, deadline: real) {
    forall j :: 0 <= j < |since| && Delivered(s, since[j], deadline) ==>
      since[j].identity.Some? && HandledIn(s, since, since[j].topic, since[j].identity.value, deadline)
  }

  ghost predicate SomeMessageHandled(s: HealthSettings, since: seq<Event>, deadline: real) {
    exists j :: 0 <= j < |since| && Delivered(s, since[j], deadline)
      && since[j].identity.Some? && HandledIn(s, since, since[j].topic, since[j].identity.value, deadline)
  }

  /** Everything a consumer probe waits for. */
  ghost predicate Complete(s: HealthSettings, since: seq<Event>, answer: Option<HealthReply>, deadline: real) {
    && UnitsIn(answer) > 0
    && |DeliveredTopics(s, since, deadline)| >= UnitsIn(answer)
    && EveryMessageHandled(s, since, deadline)
  }

  /** The topics all of whose delivered messages were handled. */
  ghost function HandledTopics(s: HealthSettings, since: seq<Event>, deadline: real): set<string> {
    set t | t in DeliveredTopics(s, since, deadline)
      && forall j :: 0 <= j < |since| && Delivered(s, since[j], deadline) && since[j].topic == t ==>
           since[j].identity.Some? && HandledIn(s, since, t, since[j].identity.value, deadline)
  }

  /** A call that looks at the clock of the pending probe: a unit message either way, or a tick. */
  ghost predicate Looks(s: HealthSettings, e: Event) {
    || (e.RawUnit? && !e.empty && IsUnitEventTopic(e.topic, s.eventPrefix))
    || (e.ProcessedUnit? && IsUnitEventTopic(e.topic, s.eventPrefix))
    || e.Tick?
  }

  /** A live status from an instance other than the one the probe started on or was answered by. */
  ghost predicate ChangesInstance(p: PendingProbe, answer: Option<HealthReply>, o: Observer, e: Event) {
    && e.StatusMessage? && o.bridge.Accepts(e.delivery)
    && var live := o.bridge.Step(e.delivery).InstanceId();
       live.Some? && ((p.instanceId.Some? && p.instanceId.value != live.value)
                      || (answer.Some? && answer.value.instanceId != live.value))
  }

  /** What a call must make of the pending probe, by the evidence with that call added. */
  ghost predicate JustifiedBy(s: HealthSettings, o: Observer, since: seq<Event>, lives: seq<Option<string>>, e: Event,
      p: PendingProbe, outcome: Option<ProbeOutcome>)
    requires |lives| == |since| > 0
  {
    var d := p.deadlineAt;
    var answer := FirstAnswer(p.kind, p.requestId, d, since, lives);
    var arrived := |DeliveredTopics(s, since, d)|;
    var answered := answer.Some?
      && FirstAnswer(p.kind, p.requestId, d, since[..|since| - 1], lives[..|since| - 1]).None?;
    var result := if answer.Some? then answer.value.result else "";
    var late := Looks(s, e) && e.Time() > d;
    && (outcome == Some(NO_REPLY) <==> late && answer.None?)
    && (outcome == Some(DELIVERY_INCOMPLETE) <==> late && answer.Some? && arrived < UnitsIn(answer))
    && (outcome == Some(CONSUMER_STALE) <==>
          late && answer.Some? && arrived >= UnitsIn(answer) && !SomeMessageHandled(s, since, d))
    && (outcome == Some(CONSUMER_PARTIAL) <==>
          late && answer.Some? && arrived >= UnitsIn(answer) && SomeMessageHandled(s, since, d))
    && (outcome == Some(BRIDGE_BUSY) <==> answered && (result == "rate_limited" || result == "busy"))
    && (outcome == Some(BRIDGE_FAILED) <==>
          answered && result != "ok" && result != "rate_limited" && result != "busy")
    && (outcome == Some(NO_UNITS) <==> answered && result == "ok" && p.kind.CONSUMER? && UnitsIn(answer) == 0)
    && (outcome == Some(OK) <==>
          if p.kind.CONSUMER? then answer.Some? && result == "ok" && Complete(s, since, answer, d)
          else answered && result == "ok")
    && (outcome == Some(SUPERSEDED) <==> ChangesInstance(p, answer, o, e))
  }

  // ---- What the tracker keeps is the evidence ------------------------------

  /** The pending probe keeps the first answer, and is not complete yet. */
  ghost predicate AnswerInv(w: World) {
    && |w.lives| == |w.since|
    && (w.observer.probes.pending.Some? ==>
          var p := w.observer.probes.pending.value;
          p.reply == FirstAnswer(p.kind, p.requestId, p.deadlineAt, w.since, w.lives) && !p.Certified())
  }

  lemma GatherKeepsAnswer(s: HealthSettings, w: World, e: Event)
    requires AnswerInv(w) && w.observer.probes.pending.Some?
    ensures var p, q := w.observer.probes.pending.value, Gathered(s, w.observer, e).pending.value;
            q.reply == FirstAnswer(p.kind, p.requestId, p.deadlineAt, w.since + [e],
                                   w.lives + [w.observer.bridge.InstanceId()])
  {
    assert (w.since + [e])[..|w.since|] == w.since;
    assert (w.lives + [w.observer.bridge.InstanceId()])[..|w.since|] == w.lives;
  }

  /** The sets of message keys say which of the delivered messages were handled. */
  lemma KeysTellHandled(s: HealthSettings, since: seq<Event>, q: PendingProbe, serial: nat)
    requires EvidenceMatches(s, since, q, serial)
    ensures q.AllHandled() <==> EveryMessageHandled(s, since, q.deadlineAt)
    ensures q.AnyHandled() <==> SomeMessageHandled(s, since, q.deadlineAt)
  {
    AllHandledExactly(s, since, q, serial);
    AnyHandledExactly(s, since, q, serial);
  }

  lemma AllHandledExactly(s: HealthSettings, since: seq<Event>, q: PendingProbe, serial: nat)
    requires EvidenceMatches(s, since, q, serial)
    ensures q.AllHandled() <==> EveryMessageHandled(s, since, q.deadlineAt)
  {
    var d := q.deadlineAt;
    if q.AllHandled() {
      forall j | 0 <= j < |since| && Delivered(s, since[j], d)
        ensures since[j].identity.Some? && HandledIn(s, since, since[j].topic, since[j].identity.value, d)
      {
        match since[j].identity {
          case None => UnmatchedIsNeverHandled(s, since, q, serial, j);
          case Some(i) =>
            assert DeliveredIn(s, since, since[j].topic, i, d);
            assert MessageKey(since[j].topic, Stamped(i)) in q.rawMessages;
        }
      }
    }
    if EveryMessageHandled(s, since, d) {
      forall m | m in q.rawMessages ensures m in q.processedMessages {
        match m.id {
          case Stamped(i) =>
            assert m == MessageKey(m.topic, Stamped(i)) && DeliveredIn(s, since, m.topic, i, d);
            assert HandledIn(s, since, m.topic, i, d);
          case Unmatched(_) =>
        }
      }
    }
  }

  lemma AnyHandledExactly(s: HealthSettings, since: seq<Event>, q: PendingProbe, serial: nat)
    requires EvidenceMatches(s, since, q, serial)
    ensures q.AnyHandled() <==> SomeMessageHandled(s, since, q.deadlineAt)
  {
    var d := q.deadlineAt;
    if q.AnyHandled() {
      var m :| m in q.rawMessages * q.processedMessages;
      match m.id {
        case Stamped(i) =>
          assert m == MessageKey(m.topic, Stamped(i)) && DeliveredIn(s, since, m.topic, i, d);
          assert HandledIn(s, since, m.topic, i, d);
        case Unmatched(_) =>
      }
    }
    if SomeMessageHandled(s, since, d) {
      var j :| 0 <= j < |since| && Delivered(s, since[j], d)
        && since[j].identity.Some? && HandledIn(s, since, since[j].topic, since[j].identity.value, d);
      var i := since[j].identity.value;
      assert DeliveredIn(s, since, since[j].topic, i, d);
      assert MessageKey(since[j].topic, Stamped(i)) in q.rawMessages * q.processedMessages;
    }
  }

  // ---- What one call makes of it -------------------------------------------

  /** The outcome of a call, by the probe as the call gathered it. */
  ghost predicate JudgedAs(s: HealthSettings, o: Observer, e: Event, outcome: Option<ProbeOutcome>)
    requires o.probes.pending.Some? && Gathered(s, o, e).pending.Some?
  {
    var p, q := o.probes.pending.value, Gathered(s, o, e).pending.value;
    var answered := q.reply.Some? && p.reply.None?;
    var result := if q.reply.Some? then q.reply.value.result else "";
    var arrived := |q.RawTopics()|;
    var late := Looks(s, e) && e.Time() > p.deadlineAt;
    && (outcome == Some(NO_REPLY) <==> late && q.reply.None?)
    && (outcome == Some(DELIVERY_INCOMPLETE) <==> late && q.reply.Some? && arrived < UnitsIn(q.reply))
    && (outcome == Some(CONSUMER_STALE) <==>
          late && q.reply.Some? && arrived >= UnitsIn(q.reply) && !q.AnyHandled())
    && (outcome == Some(CONSUMER_PARTIAL) <==>
          late && q.reply.Some? && arrived >= UnitsIn(q.reply) && q.AnyHandled())
    && (outcome == Some(BRIDGE_BUSY) <==> answered && (result == "rate_limited" || result == "busy"))
    && (outcome == Some(BRIDGE_FAILED) <==>
          answered && result != "ok" && result != "rate_limited" && result != "busy")
    && (outcome == Some(NO_UNITS) <==> answered && result == "ok" && p.kind.CONSUMER? && UnitsIn(q.reply) == 0)
    && (outcome == Some(OK) <==>
          if p.kind.CONSUMER? then q.reply.Some? && result == "ok" && q.Certified() else answered && result == "ok")
    && (outcome == Some(SUPERSEDED) <==> ChangesInstance(p, q.reply, o, e))
  }

  ghost function OutcomeOf(result: Option<ProbeResult>): Option<ProbeOutcome> {
    if result.None? then None else Some(result.value.outcome)
  }

  lemma UnitCallChecks(s: HealthSettings, startedAt: real, o: Observer, e: Event)
    requires o.probes.pending.Some? && (e.RawUnit? || e.ProcessedUnit?)
    ensures o.Step(s, startedAt, e).1 == if Looks(s, e) then Gathered(s, o, e).Check(e.now).1 else None
    ensures Gathered(s, o, e).pending.Some?
    ensures !Looks(s, e) || e.now > o.probes.pending.value.deadlineAt ==> Gathered(s, o, e) == o.probes
  {
  }

  lemma ReplySettles(s: HealthSettings, startedAt: real, o: Observer, e: Event)
    requires o.probes.pending.Some? && e.ReplyMessage?
    ensures var p, g := o.probes.pending.value, Gathered(s, o, e);
            && g.pending.Some?
            && (if g.pending.value.reply.Some? && p.reply.None? then
                  && e.now <= p.deadlineAt
                  && OutcomeOf(o.Step(s, startedAt, e).1) == g.pending.value.Settled(e.now)
                else o.Step(s, startedAt, e).1.None? && g == o.probes)
  {
  }

  lemma CheckGives(t: Tracker, now: real)
    requires t.pending.Some?
    ensures var q, outcome := t.pending.value, OutcomeOf(t.Check(now).1);
            && (outcome == Some(OK) <==> now <= q.deadlineAt && q.Certified())
            && (outcome == Some(NO_REPLY) <==> now > q.deadlineAt && q.reply.None?)
            && (outcome == Some(DELIVERY_INCOMPLETE) <==>
                  now > q.deadlineAt && q.reply.Some? && |q.RawTopics()| < UnitsIn(q.reply))
            && (outcome == Some(CONSUMER_STALE) <==>
                  now > q.deadlineAt && q.reply.Some? && |q.RawTopics()| >= UnitsIn(q.reply) && !q.AnyHandled())
            && (outcome == Some(CONSUMER_PARTIAL) <==>
                  now > q.deadlineAt && q.reply.Some? && |q.RawTopics()| >= UnitsIn(q.reply) && q.AnyHandled())
            && outcome !in {Some(SUPERSEDED), Some(BRIDGE_BUSY), Some(BRIDGE_FAILED), Some(NO_UNITS)}
  {
  }

  lemma UnitCallIsJudged(s: HealthSettings, startedAt: real, since: seq<Event>, o: Observer, e: Event)
    requires o.probes.pending.Some? && PendingInv(s, since, o) && !o.probes.pending.value.Certified()
    requires e.RawUnit? || e.ProcessedUnit?
    ensures JudgedAs(s, o, e, OutcomeOf(o.Step(s, startedAt, e).1))
  {
    UnitCallChecks(s, startedAt, o, e);
    CheckGives(Gathered(s, o, e), e.now);
    GatheredAgrees(s, since, o, e);
  }

  lemma SettledGives(q: PendingProbe, now: real)
    requires q.reply.Some? && now <= q.deadlineAt
    ensures var result := q.reply.value.result;
            && (q.Settled(now) == Some(BRIDGE_BUSY) <==> result == "rate_limited" || result == "busy")
            && (q.Settled(now) == Some(BRIDGE_FAILED) <==>
                  result != "ok" && result != "rate_limited" && result != "busy")
            && (q.Settled(now) == Some(NO_UNITS) <==> result == "ok" && q.kind.CONSUMER? && UnitsIn(q.reply) == 0)
            && (q.Settled(now) == Some(OK) <==> result == "ok" && (q.kind.STATUS? || q.Certified()))
            && q.Settled(now) !in
                 {Some(SUPERSEDED), Some(NO_REPLY), Some(DELIVERY_INCOMPLETE), Some(CONSUMER_STALE),
                  Some(CONSUMER_PARTIAL)}
  {
  }

  lemma ReplyIsJudged(s: HealthSettings, startedAt: real, since: seq<Event>, o: Observer, e: Event)
    requires o.probes.pending.Some? && PendingInv(s, since, o) && !o.probes.pending.value.Certified()
    requires e.ReplyMessage?
    ensures JudgedAs(s, o, e, OutcomeOf(o.Step(s, startedAt, e).1))
  {
    var p, q := o.probes.pending.value, Gathered(s, o, e).pending.value;
    ReplySettles(s, startedAt, o, e);
    GatheredAgrees(s, since, o, e);
    if q.reply.Some? && p.reply.None? {
      SettledGives(q, e.now);
    }
  }

  lemma OtherCallIsJudged(s: HealthSettings, startedAt: real, since: seq<Event>, o: Observer, e: Event)
    requires o.probes.pending.Some? && PendingInv(s, since, o) && !o.probes.pending.value.Certified()
    requires !e.RawUnit? && !e.ProcessedUnit? && !e.ReplyMessage?
    ensures JudgedAs(s, o, e, OutcomeOf(o.Step(s, startedAt, e).1))
  {
    if e.Tick? {
      TickChecks(s, startedAt, o, e);
      CheckGives(o.probes, e.now);
    }
  }

  lemma TickChecks(s: HealthSettings, startedAt: real, o: Observer, e: Event)
    requires e.Tick?
    ensures o.Step(s, startedAt, e).1 == o.probes.Check(e.now).1
  {
  }

  lemma CallIsJudged(s: HealthSettings, startedAt: real, since: seq<Event>, o: Observer, e: Event)
    requires o.probes.pending.Some? && PendingInv(s, since, o) && !o.probes.pending.value.Certified()
    ensures JudgedAs(s, o, e, OutcomeOf(o.Step(s, startedAt, e).1))
  {
    match e {
      case RawUnit(_, _, _, _) => UnitCallIsJudged(s, startedAt, since, o, e);
      case ProcessedUnit(_, _, _) => UnitCallIsJudged(s, startedAt, since, o, e);
      case ReplyMessage(_, _) => ReplyIsJudged(s, startedAt, since, o, e);
      case _ => OtherCallIsJudged(s, startedAt, since, o, e);
    }
  }

  lemma StepKeepsAnswer(s: HealthSettings, startedAt: real, w: World, e: Event)
    requires Inv(s, w) && AnswerInv(w)
    ensures AnswerInv(Advance(s, startedAt, w, e))
  {
    var o := w.observer;
    var (next, result) := o.Step(s, startedAt, e);
    if next.probes.pending.Some? {
      if Began(o, next, result) {
        NewProbeIsUnanswered(s, startedAt, o, e);
      } else {
        KeptProbeIsTheSame(s, startedAt, o, e);
        KeptProbeIsGathered(s, startedAt, o, e);
        GatherKeepsAnswer(s, w, e);
        CallIsJudged(s, startedAt, w.since, o, e);
        KeptMeansNoResult(s, startedAt, o, e);
        GatheredAgrees(s, w.since, o, e);
      }
    }
  }

  lemma NewProbeIsUnanswered(s: HealthSettings, startedAt: real, o: Observer, e: Event)
    requires Began(o, o.Step(s, startedAt, e).0, o.Step(s, startedAt, e).1)
    ensures o.Step(s, startedAt, e).0.probes.pending.value.reply.None?
  {
  }

  lemma KeptMeansNoResult(s: HealthSettings, startedAt: real, o: Observer, e: Event)
    requires var (next, result) := o.Step(s, startedAt, e); next.probes.pending.Some? && !Began(o, next, result)
    ensures o.Step(s, startedAt, e).1.None?
  {
  }

  lemma {:induction false} RunKeepsAnswer(s: HealthSettings, startedAt: real, events: seq<Event>)
    ensures AnswerInv(Run(s, startedAt, events))
  {
    if events != [] {
      var before := events[..|events| - 1];
      RunKeepsAnswer(s, startedAt, before);
      RunKeepsInv(s, startedAt, before);
      StepKeepsAnswer(s, startedAt, Run(s, startedAt, before), events[|events| - 1]);
    }
  }

  // ---- Results ------------------------------------------------------------

  /** The numbers a result reports, by the evidence. */
  ghost predicate Counts(s: HealthSettings, since: seq<Event>, answer: Option<HealthReply>, deadline: real,
      r: ProbeResult)
  {
    && r.expectedUnits == (if answer.Some? && answer.value.counters.Some? then Some(UnitsIn(answer)) else None)
    && r.rawUnits == |DeliveredTopics(s, since, deadline)|
    && r.processedUnits == |HandledTopics(s, since, deadline)|
  }

  lemma KeysTellTopics(s: HealthSettings, since: seq<Event>, q: PendingProbe, serial: nat)
    requires EvidenceMatches(s, since, q, serial)
    ensures q.RawTopics() == DeliveredTopics(s, since, q.deadlineAt)
    ensures q.ProcessedTopics() == HandledTopics(s, since, q.deadlineAt)
  {
    var d := q.deadlineAt;
    RawTopicsAreDelivered(s, since, q, serial);
    forall t | t in q.RawTopics() ensures t in q.ProcessedTopics() <==> t in HandledTopics(s, since, d) {
      TopicHandledExactly(s, since, q, serial, t);
    }
  }

  lemma UnstampedIsNotProcessed(s: HealthSettings, since: seq<Event>, q: PendingProbe, serial: nat, j: nat)
    requires EvidenceMatches(s, since, q, serial) && j < |since| && Delivered(s, since[j], q.deadlineAt)
    ensures since[j].topic in q.ProcessedTopics() ==> since[j].identity.Some?
  {
    var t := since[j].topic;
    if since[j].identity.None? {
      assert DeliveredUnmatched(s, since, t, q.deadlineAt) && HasUnmatched(q, t);
      var n: nat :| MessageKey(t, Unmatched(n)) in q.rawMessages;
      assert MessageKey(t, Unmatched(n)) !in q.processedMessages;
    }
  }

  lemma TopicHandledExactly(s: HealthSettings, since: seq<Event>, q: PendingProbe, serial: nat, t: string)
    requires EvidenceMatches(s, since, q, serial)
    requires t in q.RawTopics() && t in DeliveredTopics(s, since, q.deadlineAt)
    ensures t in q.ProcessedTopics() <==> t in HandledTopics(s, since, q.deadlineAt)
  {
    var d := q.deadlineAt;
    if t in q.ProcessedTopics() {
      forall j | 0 <= j < |since| && Delivered(s, since[j], d) && since[j].topic == t
        ensures since[j].identity.Some? && HandledIn(s, since, t, since[j].identity.value, d)
      {
        UnstampedIsNotProcessed(s, since, q, serial, j);
        var i := since[j].identity.value;
        assert DeliveredIn(s, since, t, i, d);
        assert MessageKey(t, Stamped(i)) in q.rawMessages;
      }
    }
    if t in HandledTopics(s, since, d) {
      forall m | m in q.rawMessages && m.topic == t ensures m in q.processedMessages {
        match m.id {
          case Stamped(i) =>
            assert m == MessageKey(t, Stamped(i)) && DeliveredIn(s, since, t, i, d);
            assert HandledIn(s, since, t, i, d);
          case Unmatched(_) =>
        }
      }
    }
  }

  /**
   * Every outcome, exactly. In every run of the observer and at every next call, the pending probe
   * ends as the evidence since it started requires, with the call itself added, and in no other
   * way; and what a consumer result counts is that evidence.
   */
  lemma {:induction false} EveryOutcomeExactly(s: HealthSettings, startedAt: real, events: seq<Event>, e: Event)
    requires Run(s, startedAt, events).observer.probes.pending.Some?
    ensures var w := Run(s, startedAt, events);
            var p, since, lives :=
              w.observer.probes.pending.value, w.since + [e], w.lives + [w.observer.bridge.InstanceId()];
            var result := w.observer.Step(s, startedAt, e).1;
            && |w.lives| == |w.since|
            && JustifiedBy(s, w.observer, since, lives, e, p, OutcomeOf(result))
            && (result.Some? && p.kind.CONSUMER? ==>
                  Counts(s, since, FirstAnswer(p.kind, p.requestId, p.deadlineAt, since, lives), p.deadlineAt,
                         result.value))
  {
    var w := Run(s, startedAt, events);
    var o, p := w.observer, w.observer.probes.pending.value;
    var since, lives := w.since + [e], w.lives + [o.bridge.InstanceId()];
    RunKeepsInv(s, startedAt, events);
    RunKeepsAnswer(s, startedAt, events);
    assert since[..|since| - 1] == w.since && lives[..|since| - 1] == w.lives;
    GatherKeepsAnswer(s, w, e);
    CallIsJudged(s, startedAt, w.since, o, e);
    JudgedIsJustified(s, w, e, OutcomeOf(o.Step(s, startedAt, e).1));
    if o.Step(s, startedAt, e).1.Some? && p.kind.CONSUMER? {
      ResultsComeFromThePendingProbe(s, startedAt, o, e);
      ResultCounts(s, w, e, o.Step(s, startedAt, e).1.value);
    }
  }

  lemma JudgedIsJustified(s: HealthSettings, w: World, e: Event, outcome: Option<ProbeOutcome>)
    requires Inv(s, w) && AnswerInv(w) && w.observer.probes.pending.Some?
    requires Gathered(s, w.observer, e).pending.Some? && JudgedAs(s, w.observer, e, outcome)
    ensures JustifiedBy(s, w.observer, w.since + [e], w.lives + [w.observer.bridge.InstanceId()], e,
                        w.observer.probes.pending.value, outcome)
  {
    var o, p := w.observer, w.observer.probes.pending.value;
    var since, lives := w.since + [e], w.lives + [o.bridge.InstanceId()];
    var q := Gathered(s, o, e).pending.value;
    assert since[..|since| - 1] == w.since && lives[..|since| - 1] == w.lives;
    GatherKeepsAnswer(s, w, e);
    GatheredAgrees(s, w.since, o, e);
    if p.kind.CONSUMER? {
      GatherKeepsEvidence(s, w.since, o, e);
      RawTopicsAreDelivered(s, since, q, Gathered(s, o, e).serial);
      KeysTellHandled(s, since, q, Gathered(s, o, e).serial);
    }
  }

  lemma ResultCounts(s: HealthSettings, w: World, e: Event, r: ProbeResult)
    requires Inv(s, w) && AnswerInv(w) && w.observer.probes.pending.Some?
    requires w.observer.probes.pending.value.kind.CONSUMER? && EndedAs(s, w.observer, e, r)
    ensures var p, since, lives :=
              w.observer.probes.pending.value, w.since + [e], w.lives + [w.observer.bridge.InstanceId()];
            Counts(s, since, FirstAnswer(p.kind, p.requestId, p.deadlineAt, since, lives), p.deadlineAt, r)
  {
    var o, since := w.observer, w.since + [e];
    var q := Gathered(s, o, e).pending.value;
    GatherKeepsAnswer(s, w, e);
    GatheredAgrees(s, w.since, o, e);
    GatherKeepsEvidence(s, w.since, o, e);
    KeysTellTopics(s, since, q, Gathered(s, o, e).serial);
  }

  /** Complete evidence ends a consumer probe at once: none that is pending has it. */
  lemma {:induction false} PendingIsIncomplete(s: HealthSettings, startedAt: real, events: seq<Event>)
    requires Run(s, startedAt, events).observer.probes.pending.Some?
    ensures var w := Run(s, startedAt, events);
            var p := w.observer.probes.pending.value;
            && |w.lives| == |w.since|
            && (p.kind.CONSUMER? ==>
                  !Complete(s, w.since, FirstAnswer(p.kind, p.requestId, p.deadlineAt, w.since, w.lives), p.deadlineAt))
  {
    var w := Run(s, startedAt, events);
    var p := w.observer.probes.pending.value;
    RunKeepsInv(s, startedAt, events);
    RunKeepsAnswer(s, startedAt, events);
    if p.kind.CONSUMER? {
      RawTopicsAreDelivered(s, w.since, p, w.observer.probes.serial);
      KeysTellHandled(s, w.since, p, w.observer.probes.serial);
    }
  }

  // ---- After the deadline --------------------------------------------------

  lemma LateCallAddsNothing(s: HealthSettings, p: PendingProbe, since: seq<Event>, lives: seq<Option<string>>,
      e: Event, live: Option<string>)
    requires |lives| == |since| && e.Time() > p.deadlineAt
    ensures var d, later := p.deadlineAt, since + [e];
            && FirstAnswer(p.kind, p.requestId, d, later, lives + [live])
               == FirstAnswer(p.kind, p.requestId, d, since, lives)
            && DeliveredTopics(s, later, d) == DeliveredTopics(s, since, d)
            && (SomeMessageHandled(s, later, d) <==> SomeMessageHandled(s, since, d))
            && (EveryMessageHandled(s, later, d) <==> EveryMessageHandled(s, since, d))
  {
    var d, later := p.deadlineAt, since + [e];
    assert later[..|since|] == since && (lives + [live])[..|since|] == lives && later[|since|] == e;
    assert forall j :: 0 <= j < |since| ==> later[j] == since[j];
    assert !Delivered(s, e, d);
    EvidenceExtends(s, since, e, d);
    forall t | t in DeliveredTopics(s, since, d) ensures t in DeliveredTopics(s, later, d) {
      var j :| 0 <= j < |since| && Delivered(s, since[j], d) && since[j].topic == t;
      assert later[j] == since[j];
    }
    if EveryMessageHandled(s, later, d) {
      forall j | 0 <= j < |since| && Delivered(s, since[j], d)
        ensures since[j].identity.Some? && HandledIn(s, since, since[j].topic, since[j].identity.value, d)
      {
        assert later[j] == since[j];
      }
    }
    if SomeMessageHandled(s, since, d) {
      var j :| 0 <= j < |since| && Delivered(s, since[j], d)
        && since[j].identity.Some? && HandledIn(s, since, since[j].topic, since[j].identity.value, d);
      assert later[j] == since[j] && HandledIn(s, later, later[j].topic, later[j].identity.value, d);
    }
  }

  /**
   * After the deadline nothing can improve a probe. A late call leaves it pending as it is, or
   * ends it with the outcome that the calls before this one already implied, or ends it because
   * another bridge instance took over.
   */
  lemma {:induction false} LateOutcomeIsFixed(s: HealthSettings, startedAt: real, events: seq<Event>, e: Event)
    requires var w := Run(s, startedAt, events);
             w.observer.probes.pending.Some? && e.Time() > w.observer.probes.pending.value.deadlineAt
    ensures var w := Run(s, startedAt, events);
            var (next, result) := w.observer.Step(s, startedAt, e);
            var p := w.observer.probes.pending.value;
            var d := p.deadlineAt;
            && |w.lives| == |w.since|
            && var answer := FirstAnswer(p.kind, p.requestId, d, w.since, w.lives);
            && (result.None? ==> next.probes.pending == Some(p))
            && (result.Some? && !ChangesInstance(p, answer, w.observer, e) ==>
                  result.value.outcome ==
                    if answer.None? then NO_REPLY
                    else if |DeliveredTopics(s, w.since, d)| < UnitsIn(answer) then DELIVERY_INCOMPLETE
                    else if SomeMessageHandled(s, w.since, d) then CONSUMER_PARTIAL
                    else CONSUMER_STALE)
            && (result.Some? && ChangesInstance(p, answer, w.observer, e) ==> result.value.outcome == SUPERSEDED)
  {
    var w := Run(s, startedAt, events);
    var o, p := w.observer, w.observer.probes.pending.value;
    var result := o.Step(s, startedAt, e).1;
    EveryOutcomeExactly(s, startedAt, events, e);
    PendingIsIncomplete(s, startedAt, events);
    LateCallKeepsProbe(s, startedAt, o, e);
    LateIsJustified(s, o, w.since, w.lives, e, o.bridge.InstanceId(), p, OutcomeOf(result));
  }

  /** What the evidence before a late call says of the outcome that the call justifies. */
  lemma LateIsJustified(s: HealthSettings, o: Observer, since: seq<Event>, lives: seq<Option<string>>, e: Event,
      live: Option<string>, p: PendingProbe, outcome: Option<ProbeOutcome>)
    requires |lives| == |since| && e.Time() > p.deadlineAt && (outcome.Some? ==> Looks(s, e) || e.StatusMessage?)
    requires JustifiedBy(s, o, since + [e], lives + [live], e, p, outcome)
    requires p.kind.CONSUMER? ==>
               !Complete(s, since, FirstAnswer(p.kind, p.requestId, p.deadlineAt, since, lives), p.deadlineAt)
    ensures var d := p.deadlineAt;
            var answer := FirstAnswer(p.kind, p.requestId, d, since, lives);
            && (outcome.Some? && Looks(s, e) ==>
                  outcome.value ==
                    if answer.None? then NO_REPLY
                    else if |DeliveredTopics(s, since, d)| < UnitsIn(answer) then DELIVERY_INCOMPLETE
                    else if SomeMessageHandled(s, since, d) then CONSUMER_PARTIAL
                    else CONSUMER_STALE)
            && (outcome.Some? && !Looks(s, e) ==> outcome.value == SUPERSEDED && ChangesInstance(p, answer, o, e))
  {
    LateCallAddsNothing(s, p, since, lives, e, live);
    var later := since + [e];
    assert later[..|later| - 1] == since && (lives + [live])[..|later| - 1] == lives;
  }

  /** A late call that leaves no result leaves the probe, and one that leaves a result looked at it. */
  lemma LateCallKeepsProbe(s: HealthSettings, startedAt: real, o: Observer, e: Event)
    requires o.probes.pending.Some? && e.Time() > o.probes.pending.value.deadlineAt
    ensures var (next, result) := o.Step(s, startedAt, e);
            && (result.None? ==> next.probes.pending == o.probes.pending)
            && (result.Some? ==> Looks(s, e) || e.StatusMessage?)
  {
  }
}
