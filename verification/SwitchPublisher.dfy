/**
 * server.py, SwitchEventPublisher: a bounded FIFO drained by one worker, which drops a key
 * it published less than a quarter of a second ago; and the pipeline from the decoder to
 * MQTT.
 */
module SwitchPublisher {
  import opened Basics
  import opened RecencyTable
  import SwitchDecoder

  const SWITCH_EVENT_DEDUP_SECONDS := 0.25
  const SWITCH_EVENT_QUEUE_MAX := 64
  const MAX_SWITCH_EVENT_VALUE := 255
  const SUPPORTED_SWITCH_EVENTS := {"PRESS", "RELEASE", "HOLD", "RELEASE_AFTER_HOLD"}

  /** A callback value: only decoder events carry an identity. */
  datatype CallbackEvent = CallbackEvent(unitId: int, button: int, event: string,
      identity: Option<SwitchDecoder.SwitchKey>)

  /** The public fields, and nothing else. */
  datatype Record = Record(unitId: int, button: int, event: string)

  datatype DedupKey =
    | Decoded(identity: SwitchDecoder.SwitchKey)
    | Callback(unitId: int, button: int, event: string)

  /** sanitize_switch_event. */
  function Sanitize(event: CallbackEvent): (record: Option<Record>) {
    if event.event in SUPPORTED_SWITCH_EVENTS
       && 0 <= event.button <= MAX_SWITCH_EVENT_VALUE && 0 <= event.unitId <= MAX_SWITCH_EVENT_VALUE
    then Some(Record(event.unitId, event.button, event.event))
    else None
  }

  /** switch_event_dedup_key. */
  function KeyOf(event: CallbackEvent): DedupKey {
    match event.identity
    case Some(identity) => Decoded(identity)
    case None => Callback(event.unitId, event.button, event.event)
  }

  /** What is publishable: the four phases, and a button and a unit that each fit a byte. */
  lemma SanitizedExactly(event: CallbackEvent)
    ensures Sanitize(event) == Some(Record(event.unitId, event.button, event.event)) <==>
            && (event.event == "PRESS" || event.event == "RELEASE" || event.event == "HOLD"
                || event.event == "RELEASE_AFTER_HOLD")
            && 0 <= event.button < 256 && 0 <= event.unitId < 256
    ensures Sanitize(event).None? || Sanitize(event) == Some(Record(event.unitId, event.button, event.event))
  {
  }

  /** Two events share a key exactly if they share their identity, or neither has one and all public fields agree. */
  lemma KeysAgreeExactly(a: CallbackEvent, b: CallbackEvent)
    ensures KeyOf(a) == KeyOf(b) <==>
            && a.identity == b.identity
            && (a.identity.None? ==> a.unitId == b.unitId && a.button == b.button && a.event == b.event)
  {
  }

  function PhaseName(phase: SwitchDecoder.SwitchEventPhase): string {
    match phase
    case PRESS => "PRESS"
    case RELEASE => "RELEASE"
    case HOLD => "HOLD"
    case RELEASE_AFTER_HOLD => "RELEASE_AFTER_HOLD"
  }

  function FromDecoder(e: SwitchDecoder.SwitchEvent): CallbackEvent {
    CallbackEvent(e.unitId, e.button, PhaseName(e.event), Some(e.dedupIdentity))
  }

  /** The keys of the well-formed events among these, in order. */
  ghost function KeysOf(events: seq<CallbackEvent>): (keys: seq<DedupKey>) {
    if events == [] then []
    else
      var last := events[|events| - 1];
      KeysOf(events[..|events| - 1]) + if Sanitize(last).Some? then [KeyOf(last)] else []
  }

  ghost function Keys(entries: seq<Entry<DedupKey>>): (keys: seq<DedupKey>)
    ensures |keys| == |entries| && forall i :: 0 <= i < |entries| ==> keys[i] == entries[i].key
  {
    seq(|entries|, i requires 0 <= i < |entries| => entries[i].key)
  }

  class SwitchEventPublisher {
    var lastSeen: map<DedupKey, real>
    var queue: seq<CallbackEvent>
    var dropped: nat
    /** Every sanitized event the worker looked at, with the time it did. */
    ghost var arrivals: seq<Entry<DedupKey>>
    /** Every event accepted into the queue, and how many of them the worker has taken. */
    ghost var enqueued: seq<CallbackEvent>
    ghost var taken: nat
    ghost var asOf: real

    ghost function Published(): seq<Entry<DedupKey>>
      reads this
    {
      Kept(arrivals, SWITCH_EVENT_DEDUP_SECONDS)
    }

    /** The table answers for everything published. */
    ghost predicate Ready()
      reads this
    {
      Agrees(lastSeen, Published(), asOf, SWITCH_EVENT_DEDUP_SECONDS)
    }

    ghost predicate Valid()
      reads this
    {
      && Ready()
      && |queue| <= SWITCH_EVENT_QUEUE_MAX
      && taken <= |enqueued| && queue == enqueued[taken..]
      && Keys(arrivals) == KeysOf(enqueued[..taken])
    }

    constructor (now: real)
      ensures Valid() && arrivals == [] && enqueued == [] && queue == [] && dropped == 0 && asOf == now
    {
      lastSeen := map[];
      queue := [];
      dropped := 0;
      arrivals := [];
      enqueued := [];
      taken := 0;
      asOf := now;
    }

    /** __call__: the newest event is dropped, and counted, only when the queue is full. */
    method Enqueue(event: CallbackEvent)
      requires Valid()
      modifies this`queue, this`dropped, this`enqueued
      ensures Valid()
      ensures |old(queue)| < 64 ==>
                enqueued == old(enqueued) + [event] && dropped == old(dropped)
      ensures |old(queue)| == 64 ==>
                enqueued == old(enqueued) && dropped == old(dropped) + 1
    {
      if |queue| < SWITCH_EVENT_QUEUE_MAX {
        assert (enqueued + [event])[..taken] == enqueued[..taken];
        queue := queue + [event];
        enqueued := enqueued + [event];
      } else {
        dropped := dropped + 1;
      }
    }

    /** _purge_expired: removes only entries that could no longer suppress anything. */
    method PurgeExpired(now: real)
      modifies this`lastSeen
      ensures lastSeen == Unexpired(old(lastSeen), now, SWITCH_EVENT_DEDUP_SECONDS)
    {
      var cutoff := now - SWITCH_EVENT_DEDUP_SECONDS;
      var items := lastSeen;
      var todo := items.Keys;
      while todo != {}
        invariant todo <= items.Keys
        invariant lastSeen == map k | k in items
                  && (k in todo || now - items[k] < SWITCH_EVENT_DEDUP_SECONDS) :: items[k]
        decreases |todo|
      {
        var key :| key in todo;
        todo := todo - {key};
        if items[key] <= cutoff {
          lastSeen := lastSeen - {key};
        }
      }
    }

    /** publish: what reaches the broker, if anything. */
    method Publish(event: CallbackEvent, now: real) returns (sent: Option<Record>)
      requires Ready() && asOf <= now
      modifies this`lastSeen, this`arrivals, this`asOf
      ensures Ready() && old(asOf) <= asOf <= now
      ensures arrivals == old(arrivals) + (if Sanitize(event).Some? then [Entry(KeyOf(event), now)] else [])
      ensures sent == if Sanitize(event).Some? && Fresh(old(Published()), KeyOf(event), now, SWITCH_EVENT_DEDUP_SECONDS)
                      then Sanitize(event) else None
      ensures Published() == if sent.Some? then old(Published()) + [Entry(KeyOf(event), now)] else old(Published())
    {
      var record := Sanitize(event);
      if record.None? {
        return None;
      }
      var key := KeyOf(event);
      ghost var history := Published();
      PurgeKeepsAgreement(lastSeen, history, asOf, SWITCH_EVENT_DEDUP_SECONDS, now);
      PurgeExpired(now);
      LookupMatchesHistory(lastSeen, history, now, SWITCH_EVENT_DEDUP_SECONDS, key, now);
      KeptExtends(arrivals, Entry(key, now), SWITCH_EVENT_DEDUP_SECONDS);
      RecordKeepsAgreement(lastSeen, history, now, SWITCH_EVENT_DEDUP_SECONDS, key, now);
      arrivals := arrivals + [Entry(key, now)];
      asOf := now;
      if key in lastSeen && now - lastSeen[key] < SWITCH_EVENT_DEDUP_SECONDS {
        return None;
      }
      lastSeen := lastSeen[key := now];
      return record;
    }

    /** One turn of the worker: events leave the queue in the order they entered it. */
    method WorkOnce(now: real) returns (sent: Option<Record>)
      requires Valid() && asOf <= now
      requires queue != []
      modifies this
      ensures Valid() && old(asOf) <= asOf <= now
      ensures taken == old(taken) + 1 && enqueued == old(enqueued) && dropped == old(dropped)
      ensures sent.Some? ==> sent == Sanitize(enqueued[old(taken)])
      ensures sent.None? ==> Sanitize(enqueued[old(taken)]).None?
                             || !Fresh(old(Published()), KeyOf(enqueued[old(taken)]), now, SWITCH_EVENT_DEDUP_SECONDS)
      ensures Published() == if sent.Some? then old(Published()) + [Entry(KeyOf(enqueued[old(taken)]), now)]
                             else old(Published())
    {
      var event := queue[0];
      assert event == enqueued[taken];
      assert enqueued[..taken + 1][..taken] == enqueued[..taken];
      queue := queue[1..];
      taken := taken + 1;
      sent := Publish(event, now);
    }
  }

  // ---- The pipeline -------------------------------------------------------

  /** `which` picks some of the emitted events, in order: those that found room in the queue. */
  ghost predicate Picks(which: seq<nat>, emitted: seq<Entry<SwitchDecoder.SwitchKey>>) {
    && (forall i :: 0 <= i < |which| ==> which[i] < |emitted|)
    && forall i, j :: 0 <= i < j < |which| ==> which[i] < which[j]
  }

  /** The picked events, each taken by the worker at most `delay` after it was emitted. */
  ghost predicate Delayed(
    emitted: seq<Entry<SwitchDecoder.SwitchKey>>, which: seq<nat>, taken: seq<Entry<DedupKey>>, delay: real)
  {
    && Picks(which, emitted) && |taken| <= |which|
    && forall i :: 0 <= i < |taken| ==>
         && taken[i].key == Decoded(emitted[which[i]].key)
         && emitted[which[i]].at <= taken[i].at <= emitted[which[i]].at + delay
  }

  /**
   * A queueing delay of at most 0.25 s loses nothing: whatever frames arrived, and whichever
   * of the events the decoder emitted found room in the queue, each of them is published
   * when the worker takes it.
   */
  lemma PipelineLosesNothing(
    frames: seq<Entry<SwitchDecoder.SwitchKey>>, emitted: seq<Entry<SwitchDecoder.SwitchKey>>, which: seq<nat>,
    taken: seq<Entry<DedupKey>>)
    requires emitted == Kept(frames, SwitchDecoder.RETRANSMIT_WINDOW_SECONDS)
    requires Delayed(emitted, which, taken, 0.25)
    ensures Spaced(taken, SWITCH_EVENT_DEDUP_SECONDS) && Kept(taken, SWITCH_EVENT_DEDUP_SECONDS) == taken
  {
    KeptIsSpaced(frames, SwitchDecoder.RETRANSMIT_WINDOW_SECONDS);
    SpacedIsKept(taken, SWITCH_EVENT_DEDUP_SECONDS);
  }

  /** The queue was fed exactly the picked events, as the decoder's callbacks. */
  ghost predicate FedBy(enqueued: seq<CallbackEvent>, emitted: seq<Entry<SwitchDecoder.SwitchKey>>, which: seq<nat>) {
    && Picks(which, emitted) && |which| == |enqueued|
    && forall i :: 0 <= i < |enqueued| ==>
         Sanitize(enqueued[i]).Some? && KeyOf(enqueued[i]) == Decoded(emitted[which[i]].key)
  }

  lemma {:induction false} WellFormedEventsHaveKeys(events: seq<CallbackEvent>)
    requires forall i :: 0 <= i < |events| ==> Sanitize(events[i]).Some?
    ensures |KeysOf(events)| == |events| && forall i :: 0 <= i < |events| ==> KeysOf(events)[i] == KeyOf(events[i])
  {
    if events != [] {
      WellFormedEventsHaveKeys(events[..|events| - 1]);
    }
  }

  /**
   * No event that entered the queue is lost: fed by the decoder, and with every event so far
   * and the next one taken within 0.25 s, the publisher has published all it took, and
   * `WorkOnce` publishes the next one too.
   */
  lemma EnqueuedEventIsSent(
    p: SwitchEventPublisher, frames: seq<Entry<SwitchDecoder.SwitchKey>>, emitted: seq<Entry<SwitchDecoder.SwitchKey>>,
    which: seq<nat>, now: real)
    requires p.Valid() && p.queue != []
    requires emitted == Kept(frames, SwitchDecoder.RETRANSMIT_WINDOW_SECONDS) && FedBy(p.enqueued, emitted, which)
    requires Delayed(emitted, which, p.arrivals + [Entry(KeyOf(p.queue[0]), now)], 0.25)
    ensures |p.arrivals| == p.taken && p.Published() == p.arrivals
    ensures Fresh(p.Published(), KeyOf(p.queue[0]), now, SWITCH_EVENT_DEDUP_SECONDS) && Sanitize(p.queue[0]).Some?
  {
    var next := Entry(KeyOf(p.queue[0]), now);
    var taken := p.arrivals + [next];
    WellFormedEventsHaveKeys(p.enqueued[..p.taken]);
    assert p.queue[0] == p.enqueued[p.taken];
    PipelineLosesNothing(frames, emitted, which, taken);
    assert forall i :: 0 <= i < |p.arrivals| ==> taken[i] == p.arrivals[i];
    SpacedIsKept(p.arrivals, SWITCH_EVENT_DEDUP_SECONDS);
    assert taken[|p.arrivals|] == next;
  }

  /** A longer delay can lose a genuine event, even with the queue drained in order. */
  lemma LongerDelayCanLose(delay: real, key: SwitchDecoder.SwitchKey)
    returns (frames: seq<Entry<SwitchDecoder.SwitchKey>>, taken: seq<Entry<DedupKey>>)
    requires delay > 0.25
    ensures Kept(frames, SwitchDecoder.RETRANSMIT_WINDOW_SECONDS) == frames
    ensures Ordered(frames) && Ordered(taken) && Delayed(frames, [0, 1], taken, delay)
    ensures |taken| == 2 && Kept(taken, SWITCH_EVENT_DEDUP_SECONDS) == taken[..1]
  {
    frames := [Entry(key, 0.0), Entry(key, 0.5)];
    var late := if delay < 0.5 then delay else 0.5;
    taken := [Entry(Decoded(key), late), Entry(Decoded(key), 0.5)];
    KeptOfTwo(frames[0], frames[1], SwitchDecoder.RETRANSMIT_WINDOW_SECONDS);
    KeptOfTwo(taken[0], taken[1], SWITCH_EVENT_DEDUP_SECONDS);
  }

  /** No decoder event is rejected as malformed, and its identity is its key. */
  lemma DecoderEventsAreSanitized(frame: SwitchDecoder.InvocationFrame)
    requires frame.WellFormed() && SwitchDecoder.Recognise(frame).Some?
    ensures var e := SwitchDecoder.Recognise(frame).value;
            && Sanitize(FromDecoder(e)) == Some(Record(e.unitId, e.button, PhaseName(e.event)))
            && KeyOf(FromDecoder(e)) == Decoded(e.dedupIdentity)
  {
    SwitchDecoder.RecognisedIsPublishable(frame);
  }
}
