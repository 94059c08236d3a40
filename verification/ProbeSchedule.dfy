/**
 * When the observer probes and what it remembers: which probe a tick starts, that neither kind
 * starves the other, and that the remembered results are the newest of the run.
 */
module ProbeSchedule {
  import opened Basics
  import opened Probes
  import opened HealthObserver
  import StatusTracker

  // ---- What a tick starts -----------------------------------------------------

  /** A probe of this kind may start: it is due, and a consumer probe needs a healthy bridge and consumer. */
  ghost predicate MayStart(s: HealthSettings, startedAt: real, o: Observer, kind: ProbeKind, e: Event)
    requires e.Tick?
  {
    if kind.STATUS? then e.now >= o.nextDue.status
    else
      && e.now >= o.nextDue.consumer && e.consumerReady
      && o.bridge.Evaluate(s.tracker, startedAt, e.now) == StatusTracker.HEALTHY
  }

  function Other(kind: ProbeKind): (other: ProbeKind)
    ensures other != kind
  {
    if kind.STATUS? then CONSUMER else STATUS
  }

  /** This kind has been due for longer; a tie goes to the status probe. */
  ghost predicate DueLonger(o: Observer, kind: ProbeKind) {
    if kind.STATUS? then o.nextDue.status <= o.nextDue.consumer else o.nextDue.consumer < o.nextDue.status
  }

  /** The tick started a probe of this kind. */
  ghost predicate Starts(s: HealthSettings, startedAt: real, o: Observer, e: Event, kind: ProbeKind) {
    var (next, result) := o.Step(s, startedAt, e);
    Began(o, next, result) && next.probes.pending.value.kind == kind
  }

  /**
   * A tick that leaves no probe pending after its check starts a probe exactly if one may start:
   * of the two kinds the one due longer, or the other one if that may not start. The started kind
   * is due again after its interval.
   */
  lemma TickStartsExactly(s: HealthSettings, startedAt: real, o: Observer, e: Event, kind: ProbeKind)
    requires e.Tick?
    ensures var (next, result) := o.Step(s, startedAt, e);
            var free := o.probes.pending.None? || result.Some?;
            && (Starts(s, startedAt, o, e, kind) <==>
                  && free && MayStart(s, startedAt, o, kind, e)
                  && (DueLonger(o, kind) || !MayStart(s, startedAt, o, Other(kind), e)))
            && next.nextDue.At(kind)
               == if !Starts(s, startedAt, o, e, kind) then o.nextDue.At(kind)
                  else e.now + if kind.CONSUMER? then s.consumerProbeInterval else s.probeInterval
  {
  }

  /**
   * A probe asked for outside the ticks starts exactly if none is pending, whatever is due, and a
   * schedule moves the due time of its kind; neither touches the other kind.
   */
  lemma AskedForExactly(s: HealthSettings, startedAt: real, o: Observer, e: Event)
    requires e.RequestProbe? || e.Schedule?
    ensures var next := o.Step(s, startedAt, e).0;
            && (Starts(s, startedAt, o, e, e.kind) <==> e.RequestProbe? && o.probes.pending.None?)
            && next.nextDue.At(Other(e.kind)) == o.nextDue.At(Other(e.kind))
            && next.nextDue.At(e.kind)
               == if e.Schedule? then e.now + e.delay
                  else if o.probes.pending.Some? then o.nextDue.At(e.kind)
                  else e.now + if e.kind.CONSUMER? then s.consumerProbeInterval else s.probeInterval
  {
  }

  /** No probe is due before the startup grace is over. */
  ghost predicate DueAfterGrace(s: HealthSettings, startedAt: real, o: Observer) {
    forall kind: ProbeKind :: o.nextDue.At(kind) >= startedAt + s.tracker.startupGraceSeconds
  }

  /** Without a request or a schedule, no tick starts a probe before the startup grace is over. */
  lemma {:induction false} NoProbeInGrace(s: HealthSettings, startedAt: real, events: seq<Event>, e: Event,
      kind: ProbeKind)
    requires s.probeInterval > 0.0 && s.consumerProbeInterval > 0.0
    requires forall i :: 0 <= i < |events| ==> !events[i].Schedule? && !events[i].RequestProbe?
    requires e.Tick? && e.now < startedAt + s.tracker.startupGraceSeconds
    ensures DueAfterGrace(s, startedAt, Run(s, startedAt, events).observer)
    ensures !Starts(s, startedAt, Run(s, startedAt, events).observer, e, kind)
  {
    if events != [] {
      var n := |events| - 1;
      NoProbeInGrace(s, startedAt, events[..n], e, kind);
      StepKeepsGrace(s, startedAt, Run(s, startedAt, events[..n]).observer, events[n]);
    }
    TickStartsExactly(s, startedAt, Run(s, startedAt, events).observer, e, kind);
  }

  lemma StepKeepsGrace(s: HealthSettings, startedAt: real, o: Observer, e: Event)
    requires s.probeInterval > 0.0 && s.consumerProbeInterval > 0.0
    requires DueAfterGrace(s, startedAt, o) && !e.Schedule? && !e.RequestProbe?
    ensures DueAfterGrace(s, startedAt, o.Step(s, startedAt, e).0)
  {
    if e.Tick? {
      TickStartsExactly(s, startedAt, o, e, STATUS);
      TickStartsExactly(s, startedAt, o, e, CONSUMER);
    }
  }

  // ---- Neither kind starves the other --------------------------------------------

  /** A probe of this kind has been due since before `now`, and longer than the other kind. */
  ghost predicate Waiting(o: Observer, kind: ProbeKind, now: real) {
    o.nextDue.At(kind) <= now && o.nextDue.At(kind) < o.nextDue.At(Other(kind))
  }

  ghost function RunFrom(s: HealthSettings, startedAt: real, o: Observer, events: seq<Event>): Observer {
    if events == [] then o
    else RunFrom(s, startedAt, o, events[..|events| - 1]).Step(s, startedAt, events[|events| - 1]).0
  }

  /** Ticks and messages in order of time, with nothing else that moves the due times. */
  ghost predicate OnlyTicks(events: seq<Event>, since: real) {
    && (forall i :: 0 <= i < |events| ==>
          since <= events[i].Time() && !events[i].Schedule? && !events[i].RequestProbe?)
    && forall i, j :: 0 <= i < j < |events| ==> events[i].Time() <= events[j].Time()
  }

  /** None of the events starts a probe of this kind. */
  ghost predicate NeverStarts(s: HealthSettings, startedAt: real, o: Observer, events: seq<Event>, kind: ProbeKind) {
    forall i :: 0 <= i < |events| ==> !Starts(s, startedAt, RunFrom(s, startedAt, o, events[..i]), events[i], kind)
  }

  lemma StepKeepsWaiting(s: HealthSettings, startedAt: real, o: Observer, e: Event, kind: ProbeKind, now: real)
    requires s.probeInterval > 0.0 && s.consumerProbeInterval > 0.0
    requires Waiting(o, kind, now) && now <= e.Time() && !e.Schedule? && !e.RequestProbe?
    requires !Starts(s, startedAt, o, e, kind)
    ensures Waiting(o.Step(s, startedAt, e).0, kind, now)
  {
    if e.Tick? {
      TickStartsExactly(s, startedAt, o, e, kind);
      TickStartsExactly(s, startedAt, o, e, Other(kind));
    }
  }

  lemma {:induction false} RunKeepsWaiting(s: HealthSettings, startedAt: real, o: Observer, events: seq<Event>,
      kind: ProbeKind, now: real)
    requires s.probeInterval > 0.0 && s.consumerProbeInterval > 0.0
    requires Waiting(o, kind, now) && OnlyTicks(events, now) && NeverStarts(s, startedAt, o, events, kind)
    ensures Waiting(RunFrom(s, startedAt, o, events), kind, now)
  {
    if events != [] {
      var n := |events| - 1;
      assert NeverStarts(s, startedAt, o, events[..n], kind) by {
        assert forall i :: 0 <= i < n ==> events[..n][..i] == events[..i] && events[..n][i] == events[i];
      }
      RunKeepsWaiting(s, startedAt, o, events[..n], kind, now);
      StepKeepsWaiting(s, startedAt, RunFrom(s, startedAt, o, events[..n]), events[n], kind, now);
    }
  }

  /**
   * Neither kind starves the other. If a tick starts one kind while the other may start, then
   * whatever happens, the first later tick that starts any probe while the other may start starts
   * the other.
   */
  lemma NeitherKindStarves(s: HealthSettings, startedAt: real, o: Observer, e: Event, events: seq<Event>, later: Event,
      kind: ProbeKind)
    requires s.probeInterval > 0.0 && s.consumerProbeInterval > 0.0
    requires e.Tick? && Starts(s, startedAt, o, e, Other(kind)) && MayStart(s, startedAt, o, kind, e)
    requires OnlyTicks(events, e.now)
    requires NeverStarts(s, startedAt, o.Step(s, startedAt, e).0, events, kind)
    requires var after := RunFrom(s, startedAt, o.Step(s, startedAt, e).0, events);
             && later.Tick? && MayStart(s, startedAt, after, kind, later)
             && (Starts(s, startedAt, after, later, kind) || Starts(s, startedAt, after, later, Other(kind)))
    ensures Starts(s, startedAt, RunFrom(s, startedAt, o.Step(s, startedAt, e).0, events), later, kind)
  {
    var next := o.Step(s, startedAt, e).0;
    TickStartsExactly(s, startedAt, o, e, kind);
    TickStartsExactly(s, startedAt, o, e, Other(kind));
    assert Waiting(next, kind, e.now);
    RunKeepsWaiting(s, startedAt, next, events, kind, e.now);
    TickStartsExactly(s, startedAt, RunFrom(s, startedAt, next, events), later, kind);
    TickStartsExactly(s, startedAt, RunFrom(s, startedAt, next, events), later, Other(kind));
  }

  // ---- What is remembered --------------------------------------------------------

  /** Every result a run published, in order. */
  ghost function Results(s: HealthSettings, startedAt: real, events: seq<Event>): (results: seq<ProbeResult>) {
    if events == [] then []
    else
      var earlier := events[..|events| - 1];
      var result := Run(s, startedAt, earlier).observer.Step(s, startedAt, events[|events| - 1]).1;
      Results(s, startedAt, earlier) + if result.Some? then [result.value] else []
  }

  /** The newest result of one kind. */
  ghost function Newest(results: seq<ProbeResult>, kind: ProbeKind): (newest: Option<ProbeResult>) {
    if results == [] then None
    else
      var last := results[|results| - 1];
      if last.kind == kind then Some(last) else Newest(results[..|results| - 1], kind)
  }

  /** When the newest OK result of one kind was published. */
  ghost function NewestOk(results: seq<ProbeResult>, kind: ProbeKind): (at: Option<real>) {
    if results == [] then None
    else
      var last := results[|results| - 1];
      if last.kind == kind && last.outcome == OK then Some(last.finishedAt)
      else NewestOk(results[..|results| - 1], kind)
  }

  ghost predicate Remembers(o: Observer, results: seq<ProbeResult>) {
    forall kind: ProbeKind ::
      && (kind in o.lastResult <==> Newest(results, kind).Some?)
      && (kind in o.lastResult ==> Newest(results, kind) == Some(o.lastResult[kind]))
      && (kind in o.lastOk <==> NewestOk(results, kind).Some?)
      && (kind in o.lastOk ==> NewestOk(results, kind) == Some(o.lastOk[kind]))
  }

  lemma ResultIsRemembered(o: Observer, results: seq<ProbeResult>, after: (Tracker, Option<ProbeResult>))
    requires Remembers(o, results)
    ensures Remembers(o.Publish(after).0, results + if after.1.Some? then [after.1.value] else [])
  {
    if after.1.Some? {
      assert (results + [after.1.value])[..|results|] == results;
    } else {
      assert results + [] == results;
    }
  }

  lemma StepRemembers(s: HealthSettings, startedAt: real, o: Observer, e: Event, results: seq<ProbeResult>)
    requires Remembers(o, results)
    ensures var (next, result) := o.Step(s, startedAt, e);
            Remembers(next, results + if result.Some? then [result.value] else [])
  {
    assert results + [] == results;
    match e {
      case StatusMessage(d) =>
        var heard := o.(bridge := o.bridge.Step(d));
        ResultIsRemembered(heard, results, heard.probes.Supersede(d.now, heard.bridge.InstanceId()));
      case ReplyMessage(reply, now) =>
        ResultIsRemembered(o, results, o.probes.OnReply(reply, now, o.bridge.InstanceId()));
      case RawUnit(topic, _, identity, now) =>
        ResultIsRemembered(o, results, o.probes.RecordRaw(topic, now, identity));
      case ProcessedUnit(topic, identity, now) =>
        ResultIsRemembered(o, results, o.probes.RecordProcessed(topic, now, identity));
      case Tick(_, _, now) =>
        ResultIsRemembered(o, results, o.probes.Check(now));
      case _ =>
    }
  }

  /** After every run the observer remembers, of each kind, the newest result and the newest success. */
  lemma {:induction false} NewestIsRemembered(s: HealthSettings, startedAt: real, events: seq<Event>)
    ensures Remembers(Run(s, startedAt, events).observer, Results(s, startedAt, events))
  {
    if events != [] {
      var n := |events| - 1;
      NewestIsRemembered(s, startedAt, events[..n]);
      StepRemembers(s, startedAt, Run(s, startedAt, events[..n]).observer, events[n],
                    Results(s, startedAt, events[..n]));
    }
  }

  /**
   * In every run a bridge counts as unsupported exactly if its tracker says so, or the tracker knows
   * nothing, the newest status probe got no reply, and no status probe ever succeeded.
   */
  lemma UnsupportedExactly(s: HealthSettings, startedAt: real, events: seq<Event>, now: real)
    ensures var o, results := Run(s, startedAt, events).observer, Results(s, startedAt, events);
            var state := o.bridge.Evaluate(s.tracker, startedAt, now);
            && (o.BridgeState(s, startedAt, now) == StatusTracker.UNSUPPORTED <==>
                  || state == StatusTracker.UNSUPPORTED
                  || (state == StatusTracker.UNKNOWN
                      && Newest(results, STATUS).Some? && Newest(results, STATUS).value.outcome == NO_REPLY
                      && NewestOk(results, STATUS).None?))
            && (o.BridgeState(s, startedAt, now) == StatusTracker.HEALTHY <==> state == StatusTracker.HEALTHY)
  {
    NewestIsRemembered(s, startedAt, events);
  }
}
