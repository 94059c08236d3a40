/**
 * server.py, BridgeHealth: the process-lifetime state behind every status and reply.
 *
 * Each status consumes one sequence number, so the order in which one process built its
 * statuses can be read off the numbers; and a status parses on the other side exactly while
 * its counters stay inside the protocol's range.
 */
module BridgeHealth {
  import opened Basics
  import opened JsonValues
  import opened HealthProtocol

  datatype SnapshotResult = SnapshotResult(units: nat, scenes: nat, failed: nat) {
    predicate Ok() { failed == 0 }
  }

  datatype Completed = Completed(result: SnapshotResult, at: real)

  /** Whole seconds of a duration that is never negative. */
  function Seconds(duration: real): int {
    duration.Floor
  }

  /** will_payload: it names the process, and nothing that changes while it runs. */
  function Will(instanceId: string): BridgeStatus {
    BridgeStatus(instanceId, None, PHASE_OFFLINE, LINK_UNKNOWN, LINK_DISCONNECTED, None,
                 SnapshotSummary(0, 0, 0, 0, None), ERROR_CONNECTION_LOST, None, PROTOCOL_VERSION)
  }

  lemma WillParsesBack(instanceId: string)
    requires ValidInstanceId(instanceId)
    ensures StatusFromDict(StatusDict(Will(instanceId))) == Some(Will(instanceId))
  {
    StatusParsesExactly(StatusDict(Will(instanceId)), Will(instanceId));
  }

  class BridgeHealth {
    const instanceId: string
    const started: real
    var sequence: nat
    var phase: string
    var ble: string
    var mqtt: string
    var error: string
    var everReady: bool
    var readySince: Option<real>
    var statePublishFailing: bool
    var snapshot: SnapshotResult
    var generation: nat
    var snapshotCompletedAt: Option<real>
    var now: real
    /** Every status this process has built, in order. */
    ghost var built: seq<BridgeStatus>
    /** Every snapshot this process has completed, in order, and when. */
    ghost var completed: seq<Completed>

    ghost predicate Valid()
      reads this
    {
      && ValidInstanceId(instanceId)
      && phase in PHASES && ble in LINK_STATES && mqtt in LINK_STATES && error in ERROR_CATEGORIES
      && started <= now
      && (snapshotCompletedAt.Some? ==> snapshotCompletedAt.value <= now)
      && BuiltInOrder(built, instanceId) && |built| == sequence
      && generation == |completed|
      && (if completed == [] then snapshot == SnapshotResult(0, 0, 0) && snapshotCompletedAt.None?
          else
            var last := completed[|completed| - 1];
            snapshot == last.result && snapshotCompletedAt == Some(last.at))
    }

    /** What a status says of the snapshots: how many there were, and the numbers and age of the last. */
    ghost predicate ReportsLast(s: SnapshotSummary)
      reads this
    {
      && s.generation == |completed|
      && if completed == [] then s.units == s.scenes == s.failed == 0 && s.ageS.None?
         else
           var last := completed[|completed| - 1];
           && s.units == last.result.units && s.scenes == last.result.scenes && s.failed == last.result.failed
           && s.ageS == Some((now - last.at).Floor)
    }

    /** Everything a status carries fits the protocol: the bound is on the counters alone. */
    ghost predicate CountersFit(status: BridgeStatus)
    {
      && OptionalCounterInRange(status.sequence) && OptionalCounterInRange(status.uptimeS)
      && ValidSnapshot(status.snapshot)
      && (status.time.Some? ==> |status.time.value| <= 40)
    }

    constructor (instanceId: string, now: real)
      requires ValidInstanceId(instanceId)
      ensures Valid() && this.instanceId == instanceId && built == [] && completed == [] && phase == PHASE_STARTING
    {
      this.instanceId := instanceId;
      this.started := now;
      this.now := now;
      sequence := 0;
      phase, ble, mqtt, error := PHASE_STARTING, LINK_UNKNOWN, LINK_UNKNOWN, ERROR_NONE;
      everReady := false;
      readySince := None;
      statePublishFailing := false;
      snapshot := SnapshotResult(0, 0, 0);
      generation := 0;
      snapshotCompletedAt := None;
      built, completed := [], [];
    }

    /** The monotonic clock, which never runs backwards. */
    method Elapse(reading: real)
      requires Valid() && now <= reading
      modifies this`now
      ensures Valid() && now == reading
    {
      now := reading;
    }

    method SetPhase(newPhase: string, newError: string)
      requires Valid() && newPhase in PHASES && newError in ERROR_CATEGORIES
      modifies this`phase, this`error, this`everReady, this`readySince
      ensures Valid() && phase == newPhase && error == newError
      ensures everReady == (old(everReady) || newPhase == PHASE_READY)
      ensures newPhase != PHASE_READY ==> readySince == None
      ensures newPhase == PHASE_READY && old(phase) != PHASE_READY ==> readySince == Some(now)
      ensures newPhase == PHASE_READY && old(phase) == PHASE_READY ==> readySince == old(readySince)
    {
      if newPhase == PHASE_READY {
        if phase != PHASE_READY {
          readySince := Some(now);
        }
        everReady := true;
      } else {
        readySince := None;
      }
      phase := newPhase;
      error := newError;
    }

    /** A new MQTT session is `starting` until its snapshot lands. */
    method SessionStarted()
      requires Valid()
      modifies this`phase, this`error, this`everReady, this`readySince, this`ble, this`mqtt
      ensures Valid() && phase == PHASE_STARTING && error == ERROR_NONE
      ensures ble == LINK_CONNECTED && mqtt == LINK_CONNECTED
    {
      ble := LINK_CONNECTED;
      mqtt := LINK_CONNECTED;
      SetPhase(PHASE_STARTING, ERROR_NONE);
    }

    /** The bridge is ready exactly when its latest snapshot had no failed publish. */
    method RecordSnapshot(result: SnapshotResult) returns (number: nat)
      requires Valid()
      modifies this`phase, this`error, this`everReady, this`readySince,
               this`snapshot, this`generation, this`snapshotCompletedAt, this`completed
      ensures Valid() && number == generation == |completed|
      ensures completed == old(completed) + [Completed(result, now)]
      ensures phase == PHASE_READY <==> result.failed == 0
      ensures result.failed > 0 ==> phase == PHASE_DEGRADED && error == ERROR_SNAPSHOT_PUBLISH_FAILED
    {
      number := generation + 1;
      generation := number;
      snapshot := result;
      snapshotCompletedAt := Some(now);
      completed := completed + [Completed(result, now)];
      if result.Ok() {
        SetPhase(PHASE_READY, ERROR_NONE);
      } else {
        SetPhase(PHASE_DEGRADED, ERROR_SNAPSHOT_PUBLISH_FAILED);
      }
    }

    /** build_status: consumes one sequence number, and parses back while its counters fit. */
    method BuildStatus(time: string) returns (status: BridgeStatus)
      requires Valid()
      modifies this`sequence, this`built
      ensures Valid() && built == old(built) + [status]
      ensures status.sequence == Some(old(sequence) + 1) && status.instanceId == instanceId
      ensures ReportsLast(status.snapshot) && status.uptimeS == Some((now - started).Floor)
      ensures status.ble == ble && status.mqtt == mqtt && status.time == Some(time)
      ensures if phase == "ready" && statePublishFailing
              then status.phase == "degraded" && status.error == "state_publish_failed"
              else status.phase == phase && status.error == error
      ensures StatusFromDict(StatusDict(status)) == Some(status) <==> CountersFit(status)
    {
      var summary := Summarise();
      sequence := sequence + 1;
      var effective, reported := phase, error;
      if phase == PHASE_READY && statePublishFailing {
        effective, reported := PHASE_DEGRADED, ERROR_STATE_PUBLISH_FAILED;
      }
      status := BridgeStatus(
        instanceId, Some(sequence), effective, ble, mqtt, Some(Seconds(now - started)),
        summary,
        reported, Some(time), PROTOCOL_VERSION);
      built := built + [status];
      ParsesWhileItFits(status);
    }

    /** The counters of the last snapshot and its age. */
    method Summarise() returns (summary: SnapshotSummary)
      requires Valid()
      ensures ReportsLast(summary)
    {
      var age := match snapshotCompletedAt case None => None case Some(at) => Some(Seconds(now - at));
      return SnapshotSummary(generation, snapshot.units, snapshot.scenes, snapshot.failed, age);
    }

    lemma ParsesWhileItFits(status: BridgeStatus)
      requires status.protocolVersion == PROTOCOL_VERSION && ValidInstanceId(status.instanceId)
      requires status.phase in PHASES && status.ble in LINK_STATES && status.mqtt in LINK_STATES
      requires status.error in ERROR_CATEGORIES && status.sequence.Some?
      ensures StatusFromDict(StatusDict(status)) == Some(status) <==> CountersFit(status)
    {
      StatusParsesExactly(StatusDict(status), status);
    }

    /** publish_reply: the reply repeats the status it was built with, and parses back with it. */
    method BuildReply(requestId: string, result: string, counts: Option<SnapshotResult>, number: nat, time: string)
      returns (reply: HealthReply)
      requires Valid() && ValidRequestId(requestId) && result in RESULTS
      modifies this`sequence, this`built
      ensures Valid() && built == old(built) + [reply.status] && ReportsLast(reply.status.snapshot)
      ensures reply.requestId == requestId && reply.result == result && reply.instanceId == instanceId
      ensures reply.kind == (if counts.Some? then "snapshot" else "status")
      ensures counts.Some? ==>
                reply.counters == Some(ReplyCounters(counts.value.units, counts.value.scenes, counts.value.failed,
                    number))
      ensures ParseReply(ReplyDict(reply)) == Some(reply) <==>
              && CountersFit(reply.status)
              && (reply.counters.Some? ==>
                    && CounterInRange(reply.counters.value.units) && CounterInRange(reply.counters.value.scenes)
                    && CounterInRange(reply.counters.value.failed) && CounterInRange(number))
    {
      var status := BuildStatus(time);
      if counts.None? {
        reply := HealthReply(REPLY_STATUS, requestId, instanceId, result, status, None);
      } else {
        reply := HealthReply(REPLY_SNAPSHOT, requestId, instanceId, result, status,
                             Some(ReplyCounters(counts.value.units, counts.value.scenes, counts.value.failed, number)));
      }
      StatusParsesExactly(StatusDict(status), status);
      ReplyParsesExactly(ReplyDict(reply), reply);
    }
  }

  /** The n-th status of a process carries sequence n+1. */
  ghost predicate BuiltInOrder(built: seq<BridgeStatus>, instanceId: string) {
    forall n :: 0 <= n < |built| ==> built[n].sequence == Some(n + 1) && built[n].instanceId == instanceId
  }
}
