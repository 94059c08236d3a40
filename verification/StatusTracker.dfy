/**
 * health.py, BridgeStatusTracker: bridge freshness from live, ordered status messages.
 *
 * `Tracker` and its step function say what one delivery does; `Log` is the ghost record of
 * everything accepted. The channel may drop, duplicate, reorder, delay and replay messages,
 * so a run is any sequence of deliveries at a nondecreasing clock.
 */
module StatusTracker {
  import opened Basics
  import opened JsonValues
  import opened HealthProtocol
  import BridgeHealth

  const RETIRED_INSTANCE_MEMORY := 8

  datatype TrackerSettings = TrackerSettings(staleSeconds: real, startupGraceSeconds: real)

  datatype BridgeState = STARTING | HEALTHY | DEGRADED | UNAVAILABLE | UNKNOWN | UNSUPPORTED

  /** What the receiver can make of one payload. */
  datatype Content = OtherVersion | Malformed | Status(status: BridgeStatus)

  function ReadPayload(payload: Document): (content: Content) {
    var version := ProtocolVersionOf(payload);
    if version.Some? && version.value != PROTOCOL_VERSION then OtherVersion
    else match StatusFromDict(payload) case None => Malformed case Some(s) => Status(s)
  }

  /** A payload reads as a status exactly when it is that valid status, printed. */
  lemma {:induction false} ReadsExactly(payload: Document, s: BridgeStatus)
    ensures ReadPayload(payload) == Status(s) <==> ValidStatus(s) && payload == StatusDict(s)
  {
    StatusParsesExactly(payload, s);
    if ValidStatus(s) && payload == StatusDict(s) {
      PrintedStatusSpells(s);
    }
  }

  datatype Delivery = Delivery(content: Content, retain: bool, now: real)

  datatype Accepted = Accepted(status: BridgeStatus, at: real)

  datatype Tracker = Tracker(
    status: Option<BridgeStatus>, receivedAt: Option<real>, retained: Option<BridgeStatus>,
    unsupportedVersion: bool, ignored: nat, retired: seq<string>, maxSequence: Option<int>)
  {
    function InstanceId(): Option<string> {
      match status case None => None case Some(s) => Some(s.instanceId)
    }

    predicate Supersedes(next: BridgeStatus) {
      status.None? || status.value.instanceId != next.instanceId
    }

    predicate Admits(next: BridgeStatus) {
      && next.instanceId !in retired
      && (!Supersedes(next) && next.sequence.Some? && maxSequence.Some? ==> next.sequence.value > maxSequence.value)
    }

    /** Whether a delivery is taken as live evidence. */
    predicate Accepts(d: Delivery) {
      d.content.Status? && !d.retain && Admits(d.content.status)
    }

    function Take(next: BridgeStatus, now: real): Tracker {
      var handover := Supersedes(next);
      this.(
        status := Some(next),
        receivedAt := Some(now),
        retired := if handover && status.Some? then LastEight(retired + [status.value.instanceId]) else retired,
        maxSequence := if next.sequence.Some? then next.sequence else if handover then None else maxSequence)
    }

    function Step(d: Delivery): Tracker {
      if d.content.OtherVersion? then this.(unsupportedVersion := true)
      else if Accepts(d) then Take(d.content.status, d.now)
      else if d.content.Status? && d.retain then this.(retained := Some(d.content.status))
      else this.(ignored := ignored + 1)
    }

    function Evaluate(settings: TrackerSettings, startedAt: real, now: real): BridgeState {
      if status.None? || receivedAt.None? then
        if now - startedAt < settings.startupGraceSeconds then STARTING
        else if unsupportedVersion then UNSUPPORTED
        else UNKNOWN
      else if status.value.phase == PHASE_OFFLINE then UNAVAILABLE
      else if now - receivedAt.value > settings.staleSeconds then UNAVAILABLE
      else if status.value.phase == PHASE_READY then HEALTHY
      else if status.value.phase == PHASE_DEGRADED then DEGRADED
      else STARTING
    }
  }

  function LastEight(ids: seq<string>): seq<string> {
    if |ids| <= RETIRED_INSTANCE_MEMORY then ids else ids[|ids| - RETIRED_INSTANCE_MEMORY..]
  }

  const NEW_TRACKER := Tracker(None, None, None, false, 0, [], None)

  // ---- Runs ---------------------------------------------------------------

  ghost function Run(deliveries: seq<Delivery>): Tracker {
    if deliveries == [] then NEW_TRACKER
    else Run(deliveries[..|deliveries| - 1]).Step(deliveries[|deliveries| - 1])
  }

  /** Everything accepted over a run, in order. */
  ghost function Log(deliveries: seq<Delivery>): seq<Accepted> {
    if deliveries == [] then []
    else
      var d := deliveries[|deliveries| - 1];
      Log(deliveries[..|deliveries| - 1])
      + if Run(deliveries[..|deliveries| - 1]).Accepts(d) then [Accepted(d.content.status, d.now)] else []
  }

  /** The instances that were replaced by another one, in order. */
  ghost function Replaced(log: seq<Accepted>): seq<string> {
    if |log| < 2 then []
    else
      var n := |log| - 1;
      Replaced(log[..n])
      + if log[n - 1].status.instanceId != log[n].status.instanceId then [log[n - 1].status.instanceId] else []
  }

  /** Entries i to j of the log all came from one instance: the tracker kept it throughout. */
  ghost predicate OneTenure(log: seq<Accepted>, i: nat, j: nat)
    requires i <= j < |log|
  {
    forall k :: i <= k <= j ==> log[k].status.instanceId == log[j].status.instanceId
  }

  ghost predicate NoDuplicates(ids: seq<string>) {
    forall i, j :: 0 <= i < j < |ids| ==> ids[i] != ids[j]
  }

  /** Sequences strictly increase while one instance is kept, and none exceeds `bound` at the end. */
  ghost predicate SequencesIncrease(log: seq<Accepted>) {
    forall i, j | 0 <= i < j < |log| && OneTenure(log, i, j)
                  && log[i].status.sequence.Some? && log[j].status.sequence.Some? ::
      log[i].status.sequence.value < log[j].status.sequence.value
  }

  ghost predicate TenureBounded(log: seq<Accepted>, bound: Option<int>)
    requires log != []
  {
    && (forall i | 0 <= i < |log| && OneTenure(log, i, |log| - 1) && log[i].status.sequence.Some? ::
          bound.Some? && log[i].status.sequence.value <= bound.value)
    && (bound.Some? ==>
          exists i | 0 <= i < |log| :: OneTenure(log, i, |log| - 1) && log[i].status.sequence == bound)
  }

  ghost predicate Consistent(t: Tracker, log: seq<Accepted>) {
    && (log == [] ==> t.status.None? && t.receivedAt.None? && t.maxSequence.None?)
    && (log != [] ==>
          && t.status == Some(log[|log| - 1].status) && t.receivedAt == Some(log[|log| - 1].at)
          && TenureBounded(log, t.maxSequence))
    && SequencesIncrease(log)
    && t.retired == LastEight(Replaced(log))
    && NoDuplicates(t.retired)
    && (t.status.Some? ==> t.status.value.instanceId !in t.retired)
  }

  /** Every run leaves the tracker consistent with everything it accepted. */
  lemma {:induction false} RunIsConsistent(deliveries: seq<Delivery>)
    ensures Consistent(Run(deliveries), Log(deliveries))
  {
    if deliveries != [] {
      var n := |deliveries| - 1;
      RunIsConsistent(deliveries[..n]);
      var t, log, d := Run(deliveries[..n]), Log(deliveries[..n]), deliveries[n];
      if t.Accepts(d) {
        TakeKeepsConsistency(t, log, d.content.status, d.now);
      } else {
        RejectKeepsConsistency(t, log, d);
        assert log + [] == log;
      }
    }
  }

  lemma RejectKeepsConsistency(t: Tracker, log: seq<Accepted>, d: Delivery)
    requires Consistent(t, log) && !t.Accepts(d)
    ensures Consistent(t.Step(d), log)
  {
    var t' := t.Step(d);
    assert t'.status == t.status && t'.receivedAt == t.receivedAt;
    assert t'.retired == t.retired && t'.maxSequence == t.maxSequence;
  }

  lemma TakeKeepsConsistency(t: Tracker, log: seq<Accepted>, next: BridgeStatus, now: real)
    requires Consistent(t, log) && t.Admits(next)
    ensures Consistent(t.Take(next, now), log + [Accepted(next, now)])
  {
    TakeKeepsRetired(t, log, next, now);
    TakeKeepsOrder(t, log, next, now);
    TakeKeepsBound(t, log, next, now);
  }

  /** Forgetting all but eight before or after one more comes to the same. */
  lemma LastEightGrows(all: seq<string>, one: string)
    ensures LastEight(LastEight(all) + [one]) == LastEight(all + [one])
  {
  }

  lemma RetiringOneMore(ids: seq<string>, one: string, current: string)
    requires NoDuplicates(ids) && one !in ids && current !in ids && current != one
    ensures NoDuplicates(LastEight(ids + [one])) && current !in LastEight(ids + [one])
  {
    assert NoDuplicates(ids + [one]);
  }

  lemma ReplacedGrows(log: seq<Accepted>, one: Accepted)
    ensures Replaced(log + [one]) ==
              if log != [] && log[|log| - 1].status.instanceId != one.status.instanceId
              then Replaced(log) + [log[|log| - 1].status.instanceId] else Replaced(log)
  {
    assert (log + [one])[..|log|] == log;
    assert Replaced(log) + [] == Replaced(log);
  }

  lemma TakeKeepsRetired(t: Tracker, log: seq<Accepted>, next: BridgeStatus, now: real)
    requires Consistent(t, log) && t.Admits(next)
    ensures var t' := t.Take(next, now);
            && t'.retired == LastEight(Replaced(log + [Accepted(next, now)]))
            && NoDuplicates(t'.retired) && next.instanceId !in t'.retired
  {
    ReplacedGrows(log, Accepted(next, now));
    if t.Supersedes(next) && t.status.Some? {
      RetiringOneMore(t.retired, t.status.value.instanceId, next.instanceId);
      LastEightGrows(Replaced(log), t.status.value.instanceId);
    }
  }

  lemma TakeKeepsOrder(t: Tracker, log: seq<Accepted>, next: BridgeStatus, now: real)
    requires Consistent(t, log) && t.Admits(next)
    ensures SequencesIncrease(log + [Accepted(next, now)])
  {
    var log' := log + [Accepted(next, now)];
    forall i, j | 0 <= i < j < |log'| && OneTenure(log', i, j)
                  && log'[i].status.sequence.Some? && log'[j].status.sequence.Some?
      ensures log'[i].status.sequence.value < log'[j].status.sequence.value
    {
      if j < |log| {
        assert forall k :: i <= k <= j ==> log[k] == log'[k];
        assert OneTenure(log, i, j);
      } else {
        assert forall k :: i <= k < |log| ==> log[k] == log'[k];
        assert log'[|log| - 1].status.instanceId == next.instanceId;
        assert OneTenure(log, i, |log| - 1);
      }
    }
  }

  lemma TakeKeepsBound(t: Tracker, log: seq<Accepted>, next: BridgeStatus, now: real)
    requires Consistent(t, log) && t.Admits(next)
    ensures TenureBounded(log + [Accepted(next, now)], t.Take(next, now).maxSequence)
  {
    var log' := log + [Accepted(next, now)];
    var n := |log|;
    var bound := t.Take(next, now).maxSequence;
    forall i | 0 <= i < |log'| && OneTenure(log', i, n) && log'[i].status.sequence.Some?
      ensures bound.Some? && log'[i].status.sequence.value <= bound.value
    {
      if i < n {
        assert forall k :: i <= k < n ==> log[k] == log'[k];
        assert log'[n - 1].status.instanceId == next.instanceId;
        assert OneTenure(log, i, n - 1);
      }
    }
    if bound.Some? {
      if next.sequence.Some? {
        assert OneTenure(log', n, n) && log'[n].status.sequence == bound;
      } else {
        var i :| 0 <= i < n && OneTenure(log, i, n - 1) && log[i].status.sequence == bound;
        assert OneTenure(log', i, n) && log'[i].status.sequence == bound;
      }
    }
  }

  // ---- What a run promises ------------------------------------------------

  /** While one instance is kept, its accepted sequences strictly increase. */
  lemma AcceptedSequencesIncrease(deliveries: seq<Delivery>, i: nat, j: nat)
    requires i < j < |Log(deliveries)| && OneTenure(Log(deliveries), i, j)
    requires Log(deliveries)[i].status.sequence.Some? && Log(deliveries)[j].status.sequence.Some?
    ensures Log(deliveries)[i].status.sequence.value < Log(deliveries)[j].status.sequence.value
  {
    RunIsConsistent(deliveries);
  }

  /**
   * Exactly when the next delivery counts: it is a live status, none of the last eight
   * replaced instances sent it, and if the current instance sent it then its number exceeds
   * every number accepted since that instance took over.
   */
  lemma {:induction false} AcceptedExactly(deliveries: seq<Delivery>, d: Delivery)
    ensures Run(deliveries).Accepts(d) <==>
            && d.content.Status? && !d.retain
            && var s, log := d.content.status, Log(deliveries);
               && s.instanceId !in Replaced(log)[if |Replaced(log)| <= 8 then 0 else |Replaced(log)| - 8..]
               && (log != [] && log[|log| - 1].status.instanceId == s.instanceId && s.sequence.Some? ==>
                     forall i | 0 <= i < |log| && OneTenure(log, i, |log| - 1) && log[i].status.sequence.Some? ::
                       log[i].status.sequence.value < s.sequence.value)
  {
    RunIsConsistent(deliveries);
  }

  /** The retired list: duplicate-free, at most eight long, and never the current instance. */
  lemma {:induction false} RetiredList(deliveries: seq<Delivery>)
    ensures var t, all := Run(deliveries), Replaced(Log(deliveries));
            && t.retired == (if |all| <= 8 then all else all[|all| - 8..])
            && NoDuplicates(t.retired)
            && (t.status.Some? ==> t.status.value.instanceId !in t.retired)
  {
    RunIsConsistent(deliveries);
  }

  /** The i-th delivery was accepted, as the last of the run. */
  ghost predicate LastAccepted(deliveries: seq<Delivery>, i: nat) {
    && i < |deliveries| && Run(deliveries[..i]).Accepts(deliveries[i])
    && Log(deliveries) == Log(deliveries[..i]) + [Accepted(deliveries[i].content.status, deliveries[i].now)]
  }

  lemma {:induction false} SomeDeliveryWasLast(deliveries: seq<Delivery>) returns (i: nat)
    requires Log(deliveries) != []
    ensures LastAccepted(deliveries, i)
  {
    var n := |deliveries| - 1;
    if Run(deliveries[..n]).Accepts(deliveries[n]) {
      i := n;
    } else {
      i := SomeDeliveryWasLast(deliveries[..n]);
      assert deliveries[..n][..i] == deliveries[..i] && deliveries[..n][i] == deliveries[i];
      assert Log(deliveries) == Log(deliveries[..n]);
    }
  }

  /**
   * HEALTHY always rests on one live message: the last one accepted, `ready`, delivered
   * without the retained flag, and no older than the stale limit.
   */
  lemma {:induction false} HealthyRestsOnLiveReady(deliveries: seq<Delivery>, settings: TrackerSettings,
      startedAt: real, now: real)
    requires Run(deliveries).Evaluate(settings, startedAt, now) == HEALTHY
    ensures var log := Log(deliveries);
            && log != [] && log[|log| - 1].status.phase == PHASE_READY
            && now - log[|log| - 1].at <= settings.staleSeconds
    ensures exists i: nat :: LastAccepted(deliveries, i) && !deliveries[i].retain
  {
    RunIsConsistent(deliveries);
    var i := SomeDeliveryWasLast(deliveries);
  }

  lemma {:induction false} OtherVersionIsRemembered(deliveries: seq<Delivery>)
    ensures Run(deliveries).unsupportedVersion
            <==> exists i :: 0 <= i < |deliveries| && deliveries[i].content.OtherVersion?
  {
    if deliveries != [] {
      var n := |deliveries| - 1;
      OtherVersionIsRemembered(deliveries[..n]);
      assert forall i :: 0 <= i < n ==> deliveries[..n][i] == deliveries[i];
    }
  }

  /**
   * Every verdict, exactly, by what was accepted over the whole run. Without any accepted status
   * it is the grace period that decides, and then whether another protocol version was ever heard;
   * with one, the phase and the age of the last accepted status.
   */
  lemma {:induction false} EveryVerdictExactly(deliveries: seq<Delivery>, settings: TrackerSettings, startedAt: real,
      now: real)
    ensures var state, log := Run(deliveries).Evaluate(settings, startedAt, now), Log(deliveries);
            var inGrace := now - startedAt < settings.startupGraceSeconds;
            var otherVersion := exists i :: 0 <= i < |deliveries| && deliveries[i].content.OtherVersion?;
            if log == [] then
              && (state == STARTING <==> inGrace)
              && (state == UNSUPPORTED <==> !inGrace && otherVersion)
              && (state == UNKNOWN <==> !inGrace && !otherVersion)
            else
              var phase, stale := log[|log| - 1].status.phase, now - log[|log| - 1].at > settings.staleSeconds;
              && (state == UNAVAILABLE <==> stale || phase == "offline")
              && (state == HEALTHY <==> !stale && phase == "ready")
              && (state == DEGRADED <==> !stale && phase == "degraded")
              && (state == STARTING <==> !stale && phase != "offline" && phase != "ready" && phase != "degraded")
  {
    RunIsConsistent(deliveries);
    OtherVersionIsRemembered(deliveries);
  }

  // ---- Sender, channel and receiver together ------------------------------

  /** Everything each bridge process ever built, by its identity. */
  type Sent = map<string, seq<BridgeStatus>>

  ghost predicate ValidSent(sent: Sent) {
    forall id :: id in sent ==> BridgeHealth.BuiltInOrder(sent[id], id)
  }

  /** The channel invents nothing: every payload is a built status or some process's last will. */
  ghost predicate FromChannel(sent: Sent, payload: Document) {
    exists id :: id in sent && SentBy(sent, id, payload)
  }

  ghost predicate SentBy(sent: Sent, id: string, payload: Document)
    requires id in sent
  {
    || payload == StatusDict(BridgeHealth.Will(id))
    || exists n :: 0 <= n < |sent[id]| && payload == StatusDict(sent[id][n])
  }

  ghost predicate Carried(sent: Sent, deliveries: seq<Delivery>) {
    forall i :: 0 <= i < |deliveries| ==>
      exists payload :: FromChannel(sent, payload) && deliveries[i].content == ReadPayload(payload)
  }

  /** `s` is its process's will, or the status that process built under that number. */
  ghost predicate Genuine(sent: Sent, s: BridgeStatus) {
    && s.instanceId in sent
    && (s == BridgeHealth.Will(s.instanceId) ||
        (s.sequence.Some? && 1 <= s.sequence.value <= |sent[s.instanceId]|
         && s == sent[s.instanceId][s.sequence.value - 1]))
  }

  lemma ReadFromChannelIsGenuine(sent: Sent, payload: Document, s: BridgeStatus)
    requires ValidSent(sent) && FromChannel(sent, payload) && ReadPayload(payload) == Status(s)
    ensures Genuine(sent, s)
  {
    ReadsExactly(payload, s);
    var id :| id in sent && SentBy(sent, id, payload);
    if payload == StatusDict(BridgeHealth.Will(id)) {
      PrintingIsInjective(s, BridgeHealth.Will(id));
    } else {
      var k :| 0 <= k < |sent[id]| && payload == StatusDict(sent[id][k]);
      PrintingIsInjective(s, sent[id][k]);
    }
  }

  /** Every accepted status is the will or a status its own process built. */
  lemma {:induction false} AcceptedWasSent(sent: Sent, deliveries: seq<Delivery>, i: nat)
    requires ValidSent(sent) && Carried(sent, deliveries)
    requires i < |Log(deliveries)|
    ensures Genuine(sent, Log(deliveries)[i].status)
  {
    var n := |deliveries| - 1;
    if i < |Log(deliveries[..n])| {
      AcceptedWasSent(sent, deliveries[..n], i);
    } else {
      var payload :| FromChannel(sent, payload) && deliveries[n].content == ReadPayload(payload);
      ReadFromChannelIsGenuine(sent, payload, deliveries[n].content.status);
    }
  }

  lemma PrintingIsInjective(a: BridgeStatus, b: BridgeStatus)
    requires StatusDict(a) == StatusDict(b)
    ensures a == b
  {
    PrintedStatusSpells(a);
    PrintedStatusSpells(b);
    var f := StatusDict(a).fields;
    assert f[SnapshotName].fields == SnapshotDict(a.snapshot).fields == SnapshotDict(b.snapshot).fields;
    SnapshotPrintingIsInjective(a.snapshot, b.snapshot);
  }

  lemma SnapshotPrintingIsInjective(a: SnapshotSummary, b: SnapshotSummary)
    requires SnapshotDict(a) == SnapshotDict(b)
    ensures a == b
  {
    var f := SnapshotDict(a).fields;
    assert f[GenerationName] == Int(a.generation) && f[UnitsName] == Int(a.units) && f[ScenesName] == Int(a.scenes);
    assert f[FailedName] == Int(a.failed) && f[AgeSName] == OptionalInt(a.ageS);
  }

  /**
   * No earlier heartbeat undoes a later one: while the tracker keeps one instance, the
   * numbered statuses it accepts are statuses of that process in the order it built them,
   * whatever the channel dropped, repeated, reordered or delayed.
   */
  lemma AcceptedInBuildOrder(sent: Sent, deliveries: seq<Delivery>, i: nat, j: nat)
    requires ValidSent(sent) && Carried(sent, deliveries)
    requires i < j < |Log(deliveries)| && OneTenure(Log(deliveries), i, j)
    requires Log(deliveries)[i].status.sequence.Some? && Log(deliveries)[j].status.sequence.Some?
    ensures BuiltBefore(sent, Log(deliveries)[i].status, Log(deliveries)[j].status)
  {
    AcceptedWasSent(sent, deliveries, i);
    AcceptedWasSent(sent, deliveries, j);
    AcceptedSequencesIncrease(deliveries, i, j);
    var log := Log(deliveries);
    assert log[i].status.instanceId == log[j].status.instanceId;
    GenuineInOrder(sent, log[i].status, log[j].status);
  }

  /** One process built both, and built `a` before `b`. */
  ghost predicate BuiltBefore(sent: Sent, a: BridgeStatus, b: BridgeStatus) {
    && a.instanceId == b.instanceId && a.instanceId in sent
    && exists m, n :: 0 <= m < n < |sent[a.instanceId]| && a == sent[a.instanceId][m] && b == sent[a.instanceId][n]
  }

  lemma GenuineInOrder(sent: Sent, a: BridgeStatus, b: BridgeStatus)
    requires Genuine(sent, a) && Genuine(sent, b) && a.instanceId == b.instanceId
    requires a.sequence.Some? && b.sequence.Some? && a.sequence.value < b.sequence.value
    ensures BuiltBefore(sent, a, b)
  {
    var m, n := a.sequence.value - 1, b.sequence.value - 1;
    assert a == sent[a.instanceId][m] && b == sent[a.instanceId][n];
  }

  /** `n` exceeds every number accepted since the current instance took over. */
  ghost predicate ExceedsTenure(log: seq<Accepted>, n: int)
    requires log != []
  {
    forall i | 0 <= i < |log| && OneTenure(log, i, |log| - 1) && log[i].status.sequence.Some? ::
      log[i].status.sequence.value < n
  }

  /**
   * The last will carries no number, so it only fences off what was already accepted: after
   * an accepted will, a live heartbeat of the same process is taken, and the will undone,
   * exactly when its number exceeds every number accepted from that process since it took
   * over.
   */
  lemma {:induction false} WillIsUndoneExactly(sent: Sent, deliveries: seq<Delivery>, id: string, heartbeat: nat,
      now: real)
    requires ValidSent(sent) && Carried(sent, deliveries)
    requires id in sent && heartbeat < |sent[id]| && ValidStatus(sent[id][heartbeat])
    requires Log(deliveries) != [] && Log(deliveries)[|Log(deliveries)| - 1].status == BridgeHealth.Will(id)
    ensures var log, s := Log(deliveries), sent[id][heartbeat];
            var d := Delivery(ReadPayload(StatusDict(s)), false, now);
            && Carried(sent, deliveries + [d])
            && (ExceedsTenure(log, s.sequence.value) ==> Run(deliveries + [d]).status == Some(s))
            && (!ExceedsTenure(log, s.sequence.value) ==> Run(deliveries + [d]).status == Some(BridgeHealth.Will(id)))
  {
    var log, s := Log(deliveries), sent[id][heartbeat];
    var d := Delivery(ReadPayload(StatusDict(s)), false, now);
    assert BridgeHealth.BuiltInOrder(sent[id], id);
    ReadsExactly(StatusDict(s), s);
    assert SentBy(sent, id, StatusDict(s));
    RunIsConsistent(deliveries);
    AcceptedExactly(deliveries, d);
    assert (deliveries + [d])[..|deliveries|] == deliveries;
    assert FromChannel(sent, StatusDict(s));
  }

  /** A heartbeat, the will, and a heartbeat that was built before the will but delivered after it. */
  function DelayedHeartbeat(first: BridgeStatus, second: BridgeStatus, now: real): seq<Delivery> {
    [Delivery(Status(first), false, now), Delivery(Status(BridgeHealth.Will(first.instanceId)), false, now),
     Delivery(Status(second), false, now)]
  }

  lemma DelayedHeartbeatIsTaken(first: BridgeStatus, second: BridgeStatus, now: real)
    requires first.instanceId == second.instanceId && first.sequence.Some? && second.sequence.Some?
    requires first.sequence.value < second.sequence.value
    ensures var deliveries := DelayedHeartbeat(first, second, now);
            && Run(deliveries[..2]).status == Some(BridgeHealth.Will(first.instanceId))
            && Run(deliveries).status == Some(second) && Run(deliveries).receivedAt == Some(now)
  {
    var deliveries := DelayedHeartbeat(first, second, now);
    assert deliveries[..1][..0] == [] && deliveries[..2][..1] == deliveries[..1] && deliveries[..3] == deliveries;
    assert Run(deliveries[..1]) == NEW_TRACKER.Take(first, now);
    assert Run(deliveries[..2]) == Run(deliveries[..1]).Take(BridgeHealth.Will(first.instanceId), now);
    assert Run(deliveries) == Run(deliveries[..2]).Take(second, now);
  }

  /** The channel can deliver this status. */
  ghost predicate Arrives(sent: Sent, s: BridgeStatus) {
    exists payload :: FromChannel(sent, payload) && Status(s) == ReadPayload(payload)
  }

  /** A valid status that its process built, or its will, can arrive as such. */
  lemma CanArrive(sent: Sent, id: string, s: BridgeStatus)
    requires id in sent && ValidStatus(s) && (s in sent[id] || s == BridgeHealth.Will(id))
    ensures Arrives(sent, s)
  {
    ReadsExactly(StatusDict(s), s);
    assert SentBy(sent, id, StatusDict(s)) && FromChannel(sent, StatusDict(s));
  }

  lemma CarriedGrows(sent: Sent, id: string, deliveries: seq<Delivery>, s: BridgeStatus, now: real)
    requires Carried(sent, deliveries) && id in sent
    requires ValidStatus(s) && (s in sent[id] || s == BridgeHealth.Will(id))
    ensures Carried(sent, deliveries + [Delivery(Status(s), false, now)])
  {
    CanArrive(sent, id, s);
  }

  lemma WillIsCarried(sent: Sent, id: string, deliveries: seq<Delivery>, now: real)
    requires Carried(sent, deliveries) && id in sent && ValidInstanceId(id)
    ensures Carried(sent, deliveries + [Delivery(Status(BridgeHealth.Will(id)), false, now)])
  {
    CarriedGrows(sent, id, deliveries, BridgeHealth.Will(id), now);
  }

  lemma FreshReadyIsHealthy(t: Tracker, settings: TrackerSettings, now: real)
    requires t.status.Some? && t.status.value.phase == PHASE_READY && t.receivedAt == Some(now)
             && settings.staleSeconds >= 0.0
    ensures t.Evaluate(settings, now, now) == HEALTHY
  {
  }

  /** So a ready heartbeat the receiver had not seen yet makes the bridge healthy again after its will. */
  lemma UnseenHeartbeatUndoesWill(sent: Sent, id: string, early: nat, late: nat, settings: TrackerSettings, now: real)
    requires ValidSent(sent) && id in sent && ValidInstanceId(id) && early < late < |sent[id]|
    requires ValidStatus(sent[id][early]) && ValidStatus(sent[id][late])
    requires sent[id][late].phase == PHASE_READY && settings.staleSeconds >= 0.0
    ensures var deliveries := DelayedHeartbeat(sent[id][early], sent[id][late], now);
            && Carried(sent, deliveries)
            && Run(deliveries[..2]).status == Some(BridgeHealth.Will(id))
            && Run(deliveries).Evaluate(settings, now, now) == HEALTHY
  {
    var first, second := sent[id][early], sent[id][late];
    assert BridgeHealth.BuiltInOrder(sent[id], id);
    var one := [Delivery(Status(first), false, now)];
    var two := one + [Delivery(Status(BridgeHealth.Will(id)), false, now)];
    CarriedGrows(sent, id, [], first, now);
    assert [] + one == one;
    WillIsCarried(sent, id, one, now);
    CarriedGrows(sent, id, two, second, now);
    assert two + [Delivery(Status(second), false, now)] == DelayedHeartbeat(first, second, now);
    DelayedHeartbeatIsTaken(first, second, now);
    FreshReadyIsHealthy(Run(DelayedHeartbeat(first, second, now)), settings, now);
  }

  // ---- The class ----------------------------------------------------------

  class BridgeStatusTracker {
    const settings: TrackerSettings
    const startedAt: real
    var status: Option<BridgeStatus>
    var receivedAt: Option<real>
    var retained: Option<BridgeStatus>
    var unsupportedVersion: bool
    var ignored: nat
    var retired: seq<string>
    var maxSequence: Option<int>

    function View(): Tracker
      reads this
    {
      Tracker(status, receivedAt, retained, unsupportedVersion, ignored, retired, maxSequence)
    }

    predicate Valid()
      reads this
    {
      |retired| <= RETIRED_INSTANCE_MEMORY
    }

    constructor (settings: TrackerSettings, startedAt: real)
      ensures Valid() && View() == NEW_TRACKER && this.settings == settings && this.startedAt == startedAt
    {
      this.settings := settings;
      this.startedAt := startedAt;
      status, receivedAt, retained := None, None, None;
      unsupportedVersion := false;
      ignored := 0;
      retired := [];
      maxSequence := None;
    }

    /** on_message: one step of the tracker; true if the message now is its status. */
    method OnMessage(payload: Document, retain: bool, now: real) returns (accepted: bool)
      requires Valid()
      modifies this
      ensures Valid()
      ensures View() == old(View()).Step(Delivery(ReadPayload(payload), retain, now))
      ensures accepted == old(View()).Accepts(Delivery(ReadPayload(payload), retain, now))
    {
      var version := ProtocolVersionOf(payload);
      if version.Some? && version.value != PROTOCOL_VERSION {
        unsupportedVersion := true;
        return false;
      }
      var parsed := StatusFromDict(payload);
      if parsed.None? {
        ignored := ignored + 1;
        return false;
      }
      var next := parsed.value;
      if retain {
        retained := Some(next);
        return false;
      }
      if next.instanceId in retired {
        ignored := ignored + 1;
        return false;
      }
      var current := status;
      if current.Some? && next.instanceId == current.value.instanceId {
        if next.sequence.Some? && maxSequence.Some? && next.sequence.value <= maxSequence.value {
          ignored := ignored + 1;
          return false;
        }
      } else {
        if current.Some? {
          retired := retired + [current.value.instanceId];
          if |retired| > RETIRED_INSTANCE_MEMORY {
            retired := retired[|retired| - RETIRED_INSTANCE_MEMORY..];
          }
        }
        maxSequence := None;
      }
      if next.sequence.Some? {
        maxSequence := next.sequence;
      }
      status := Some(next);
      receivedAt := Some(now);
      return true;
    }

    function Evaluate(now: real): BridgeState
      reads this
    {
      View().Evaluate(settings, startedAt, now)
    }
  }
}
