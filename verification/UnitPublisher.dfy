/**
 * server.py, UnitStatePublisher: a coalescing queue drained by one worker that retries.
 *
 * The worker is modelled by what it does between two suspensions: waking up, learning that a
 * publish was confirmed or failed, and finishing its backoff. `submit` may run between any
 * two of those. A run is any sequence of such events.
 */
module UnitPublisher {
  import opened Basics

  /** One submitted state; `number` is its place in the order of all submissions. */
  datatype Update = Update(topic: string, number: nat, payload: string)

  datatype Phase = Waiting | Publishing | BackingOff

  datatype Event =
    | Submit(topic: string, payload: string)
    | Wake
    | Confirmed
    | Failed
    | BackoffOver

  /** The index of a topic among pending updates, or their number if it is absent. */
  function Position(pending: seq<Update>, topic: string): (k: nat)
    ensures k <= |pending|
    ensures k < |pending| ==> pending[k].topic == topic
    ensures forall i :: 0 <= i < k ==> pending[i].topic != topic
  {
    if pending == [] || pending[0].topic == topic then 0 else 1 + Position(pending[1..], topic)
  }

  predicate Has(pending: seq<Update>, topic: string) {
    Position(pending, topic) < |pending|
  }

  datatype Publisher = Publisher(
    pending: seq<Update>, inflight: Option<Update>, phase: Phase, wakeup: bool, idle: bool,
    attempted: nat, failed: nat, submitted: seq<Update>, confirmed: seq<Update>)
  {
    predicate Enabled(e: Event) {
      match e
      case Submit(_, _) => true
      case Wake => phase == Waiting && wakeup
      case Confirmed => phase == Publishing && inflight.Some?
      case Failed => phase == Publishing && inflight.Some?
      case BackoffOver => phase == BackingOff
    }

    /** In place if the topic is already pending, at the back otherwise. */
    function Put(u: Update): seq<Update> {
      var k := Position(pending, u.topic);
      if k < |pending| then pending[k := u] else pending + [u]
    }

    /** The top of the worker's inner loop: take the oldest topic, or go back to waiting. */
    function Drain(): Publisher {
      if pending == [] then this.(phase := Waiting, idle := true)
      else this.(pending := pending[1..], inflight := Some(pending[0]), phase := Publishing, attempted := attempted + 1)
    }

    function Step(e: Event): Publisher
      requires Enabled(e)
    {
      match e
      case Submit(topic, payload) =>
        var u := Update(topic, |submitted|, payload);
        this.(pending := Put(u), submitted := submitted + [u], idle := false, wakeup := true)
      case Wake => this.(wakeup := false).Drain()
      case Confirmed => this.(confirmed := confirmed + [inflight.value], inflight := None).Drain()
      case Failed =>
        this.(pending := if Has(pending, inflight.value.topic) then pending else pending + [inflight.value],
              inflight := None, phase := BackingOff, failed := failed + 1)
      case BackoffOver => this.(wakeup := true, phase := Waiting, idle := idle || pending == [])
    }

    /** The event takes the oldest pending topic out of the queue. */
    predicate Pops(e: Event) {
      (e == Wake || e == Confirmed) && pending != []
    }
  }

  const NEW_PUBLISHER := Publisher([], None, Waiting, false, true, 0, 0, [], [])

  /** The publisher after a run, if every event of the run could happen when it did. */
  ghost function Run(start: Publisher, events: seq<Event>): Option<Publisher> {
    if events == [] then Some(start)
    else
      var before, e := Run(start, events[..|events| - 1]), events[|events| - 1];
      if before.Some? && before.value.Enabled(e) then Some(before.value.Step(e)) else None
  }

  // ---- Invariant ----------------------------------------------------------

  ghost predicate Genuine(p: Publisher, u: Update) {
    u.number < |p.submitted| && p.submitted[u.number] == u
  }

  /** No update of the same topic was submitted after `u`. */
  ghost predicate Newest(p: Publisher, u: Update) {
    forall n :: u.number < n < |p.submitted| ==> p.submitted[n].topic != u.topic
  }

  ghost predicate Older(updates: seq<Update>, u: Update) {
    forall i :: 0 <= i < |updates| && updates[i].topic == u.topic ==> updates[i].number < u.number
  }

  ghost predicate InOrder(updates: seq<Update>) {
    forall i, j :: 0 <= i < j < |updates| && updates[i].topic == updates[j].topic ==>
      updates[i].number < updates[j].number
  }

  ghost predicate Numbered(p: Publisher) {
    forall n :: 0 <= n < |p.submitted| ==> p.submitted[n].number == n
  }

  /** Pending topics are distinct, and each waits with its newest value, which nothing confirmed exceeds. */
  ghost predicate PendingInv(p: Publisher) {
    && (forall i, j :: 0 <= i < j < |p.pending| ==> p.pending[i].topic != p.pending[j].topic)
    && (forall i :: 0 <= i < |p.pending| ==>
          Genuine(p, p.pending[i]) && Newest(p, p.pending[i]) && Older(p.confirmed, p.pending[i]))
  }

  ghost predicate InflightInv(p: Publisher) {
    p.inflight.Some? ==>
      var u := p.inflight.value;
      && Genuine(p, u) && Older(p.confirmed, u)
      && (!Has(p.pending, u.topic) ==> Newest(p, u))
      && (forall i :: 0 <= i < |p.pending| && p.pending[i].topic == u.topic ==> u.number < p.pending[i].number)
  }

  ghost predicate ConfirmedInv(p: Publisher) {
    && InOrder(p.confirmed)
    && forall i :: 0 <= i < |p.confirmed| ==> Genuine(p, p.confirmed[i])
  }

  /** The newest value of every topic is pending, in flight or confirmed: nothing is lost. */
  ghost predicate NothingLost(p: Publisher) {
    forall n :: 0 <= n < |p.submitted| && Newest(p, p.submitted[n]) ==>
      p.submitted[n] in p.pending || p.inflight == Some(p.submitted[n]) || p.submitted[n] in p.confirmed
  }

  /** A waiting worker with work has its wakeup set; idle means there is nothing left to do. */
  ghost predicate SignalsInv(p: Publisher) {
    && (p.phase == Publishing <==> p.inflight.Some?)
    && (p.phase == Waiting && p.pending != [] ==> p.wakeup)
    && (p.phase == BackingOff ==> p.pending != [])
    && (p.idle ==> p.phase == Waiting && p.pending == [])
    && p.attempted == |p.confirmed| + p.failed + (if p.inflight.Some? then 1 else 0)
  }

  ghost predicate Inv(p: Publisher) {
    Numbered(p) && PendingInv(p) && InflightInv(p) && ConfirmedInv(p) && NothingLost(p) && SignalsInv(p)
  }

  lemma SubmitKeepsPending(p: Publisher, topic: string, payload: string)
    requires Inv(p)
    ensures PendingInv(p.Step(Submit(topic, payload)))
  {
    var q, k := p.Step(Submit(topic, payload)), Position(p.pending, topic);
    forall i | 0 <= i < |q.pending|
        ensures Genuine(q, q.pending[i]) && Newest(q, q.pending[i]) && Older(q.confirmed, q.pending[i]) {
      if i != k {
        assert q.pending[i] == p.pending[i] && q.pending[i].topic != topic;
      } else {
        assert q.submitted[|p.submitted|] == q.pending[k];
        assert Older(q.confirmed, q.pending[k]) by {
          assert forall c :: 0 <= c < |p.confirmed| ==> Genuine(p, p.confirmed[c]);
        }
      }
    }
  }

  lemma SubmitLosesNothing(p: Publisher, topic: string, payload: string)
    requires Inv(p)
    ensures NothingLost(p.Step(Submit(topic, payload)))
  {
    var q, k := p.Step(Submit(topic, payload)), Position(p.pending, topic);
    forall n | 0 <= n < |q.submitted| && Newest(q, q.submitted[n])
      ensures q.submitted[n] in q.pending || q.inflight == Some(q.submitted[n]) || q.submitted[n] in q.confirmed
    {
      if n == |p.submitted| {
        assert q.pending[k] == q.submitted[n];
      } else {
        var u := p.submitted[n];
        assert q.submitted[n] == u && q.submitted[|p.submitted|].topic == topic != u.topic;
        assert Newest(p, u) by {
          assert forall m :: 0 <= m < |p.submitted| ==> q.submitted[m] == p.submitted[m];
        }
        if u in p.pending {
          var i :| 0 <= i < |p.pending| && p.pending[i] == u;
          assert q.pending[i] == u;
        }
      }
    }
  }

  lemma PutKeepsTopics(p: Publisher, u: Update, topic: string)
    ensures Has(p.Put(u), topic) <==> Has(p.pending, topic) || topic == u.topic
  {
    var q, k := p.Put(u), Position(p.pending, u.topic);
    assert q[k] == u;
    if Has(p.pending, topic) {
      var j := Position(p.pending, topic);
      assert q[j].topic == topic;
    }
  }

  lemma SubmitKeepsInflight(p: Publisher, topic: string, payload: string)
    requires Inv(p)
    ensures InflightInv(p.Step(Submit(topic, payload)))
  {
    var q, k := p.Step(Submit(topic, payload)), Position(p.pending, topic);
    if p.inflight.Some? {
      var u := p.inflight.value;
      assert q.pending[k].topic == topic;
      PutKeepsTopics(p, q.pending[k], u.topic);
      forall i | 0 <= i < |q.pending| && q.pending[i].topic == u.topic ensures u.number < q.pending[i].number {
        if i != k {
          assert q.pending[i] == p.pending[i];
        }
      }
    }
  }

  lemma SubmitKeepsInv(p: Publisher, topic: string, payload: string)
    requires Inv(p)
    ensures Inv(p.Step(Submit(topic, payload)))
  {
    SubmitKeepsPending(p, topic, payload);
    SubmitLosesNothing(p, topic, payload);
    SubmitKeepsInflight(p, topic, payload);
  }

  lemma DrainKeepsInv(p: Publisher)
    requires Numbered(p) && PendingInv(p) && ConfirmedInv(p) && NothingLost(p) && p.inflight.None?
    requires p.attempted == |p.confirmed| + p.failed && !(p.idle && p.pending != [])
    ensures Inv(p.Drain())
  {
    var q := p.Drain();
    if p.pending != [] {
      assert forall i :: 0 <= i < |q.pending| ==> q.pending[i] == p.pending[i + 1];
      assert forall u :: u in p.pending ==> u == p.pending[0] || u in q.pending;
    }
  }

  ghost function Confirm(p: Publisher): Publisher
    requires p.inflight.Some?
  {
    p.(confirmed := p.confirmed + [p.inflight.value], inflight := None)
  }

  lemma ConfirmKeepsOrder(p: Publisher)
    requires Inv(p) && p.inflight.Some?
    ensures PendingInv(Confirm(p)) && ConfirmedInv(Confirm(p))
  {
    var q := Confirm(p);
    assert q.confirmed[|p.confirmed|] == p.inflight.value;
    assert forall i :: 0 <= i < |p.confirmed| ==> q.confirmed[i] == p.confirmed[i];
  }

  lemma ConfirmLosesNothing(p: Publisher)
    requires NothingLost(p) && p.inflight.Some?
    ensures NothingLost(Confirm(p))
  {
    var q := Confirm(p);
    assert q.confirmed[|p.confirmed|] == p.inflight.value;
    assert forall u :: u in p.confirmed ==> u in q.confirmed;
  }

  lemma ConfirmedKeepsInv(p: Publisher)
    requires Inv(p) && p.Enabled(Confirmed)
    ensures Inv(p.Step(Confirmed))
  {
    ConfirmKeepsOrder(p);
    ConfirmLosesNothing(p);
    DrainKeepsInv(Confirm(p));
  }

  lemma FailedKeepsInv(p: Publisher)
    requires Inv(p) && p.Enabled(Failed)
    ensures Inv(p.Step(Failed))
  {
    var q, u := p.Step(Failed), p.inflight.value;
    assert forall i :: 0 <= i < |p.pending| ==> q.pending[i] == p.pending[i];
    assert forall x :: x in p.pending ==> x in q.pending;
    if !Has(p.pending, u.topic) {
      assert q.pending[|p.pending|] == u;
    } else {
      assert !Newest(p, u) by {
        var k := Position(p.pending, u.topic);
        assert p.submitted[p.pending[k].number].topic == u.topic;
      }
    }
  }

  lemma StepKeepsInv(p: Publisher, e: Event)
    requires Inv(p) && p.Enabled(e)
    ensures Inv(p.Step(e))
  {
    match e {
      case Submit(topic, payload) => SubmitKeepsInv(p, topic, payload);
      case Wake => DrainKeepsInv(p.(wakeup := false));
      case Confirmed => ConfirmedKeepsInv(p);
      case Failed => FailedKeepsInv(p);
      case BackoffOver =>
    }
  }

  lemma {:induction false} RunKeepsInv(start: Publisher, events: seq<Event>)
    requires Inv(start) && Run(start, events).Some?
    ensures Inv(Run(start, events).value)
  {
    if events != [] {
      RunKeepsInv(start, events[..|events| - 1]);
      StepKeepsInv(Run(start, events[..|events| - 1]).value, events[|events| - 1]);
    }
  }

  // ---- What every run promises --------------------------------------------

  /** The last confirmed update of a topic. */
  ghost predicate LastConfirmed(p: Publisher, u: Update) {
    exists i :: 0 <= i < |p.confirmed| && p.confirmed[i] == u
      && forall j :: i < j < |p.confirmed| ==> p.confirmed[j].topic != u.topic
  }

  lemma NewestConfirmedIsLast(p: Publisher, u: Update)
    requires Inv(p) && Newest(p, u) && Genuine(p, u) && u in p.confirmed
    ensures LastConfirmed(p, u)
  {
    var i :| 0 <= i < |p.confirmed| && p.confirmed[i] == u;
    forall j | i < j < |p.confirmed| ensures p.confirmed[j].topic != u.topic {
      assert Genuine(p, p.confirmed[j]);
    }
  }

  /** What the `Submit` events of a run submit, numbered from zero. */
  ghost function Submissions(events: seq<Event>): (updates: seq<Update>) {
    if events == [] then []
    else
      var before, e := Submissions(events[..|events| - 1]), events[|events| - 1];
      if e.Submit? then before + [Update(e.topic, |before|, e.payload)] else before
  }

  /** The update that event `k` of a run submits. */
  ghost function SubmittedBy(events: seq<Event>, k: nat): (u: Update)
    requires k < |events| && events[k].Submit?
    ensures u.topic == events[k].topic && u.payload == events[k].payload
  {
    Update(events[k].topic, |Submissions(events[..k])|, events[k].payload)
  }

  /** The publisher keeps every submission as it was made: topic, payload and place. */
  lemma {:induction false} SubmissionsAreKept(events: seq<Event>)
    requires Run(NEW_PUBLISHER, events).Some?
    ensures Run(NEW_PUBLISHER, events).value.submitted == Submissions(events)
  {
    if events != [] {
      SubmissionsAreKept(events[..|events| - 1]);
    }
  }

  lemma {:induction false} SubmissionsGrow(events: seq<Event>, m: nat)
    requires m <= |events|
    ensures Submissions(events[..m]) <= Submissions(events)
  {
    var n := |events| - 1;
    if m <= n {
      assert events[..n][..m] == events[..m];
      SubmissionsGrow(events[..n], m);
    } else {
      assert events[..m] == events;
    }
  }

  /** Every `Submit` event has its place among the submissions, behind those of the earlier ones. */
  lemma PlaceOfEvent(events: seq<Event>, k: nat)
    requires k < |events| && events[k].Submit?
    ensures var u := SubmittedBy(events, k);
            u.number < |Submissions(events)| && Submissions(events)[u.number] == u
    ensures forall j :: 0 <= j < k && events[j].Submit? ==>
              SubmittedBy(events, j).number < SubmittedBy(events, k).number
  {
    SubmissionsGrow(events, k + 1);
    assert events[..k + 1][..k] == events[..k];
    forall j | 0 <= j < k && events[j].Submit?
      ensures SubmittedBy(events, j).number < SubmittedBy(events, k).number
    {
      SubmissionsGrow(events[..k], j + 1);
      assert events[..k][..j + 1] == events[..j + 1] && events[..j + 1][..j] == events[..j];
    }
  }

  /** Every place among the submissions has its `Submit` event. */
  lemma {:induction false} EventOfPlace(events: seq<Event>, n: nat) returns (k: nat)
    requires n < |Submissions(events)|
    ensures k < |events| && events[k].Submit? && Submissions(events)[n] == SubmittedBy(events, k)
  {
    var m := |events| - 1;
    if n < |Submissions(events[..m])| {
      k := EventOfPlace(events[..m], n);
      assert events[..m][..k] == events[..k];
    } else {
      k := m;
    }
  }

  /** No event after `k` submits the topic of event `k`. */
  ghost predicate LastSubmit(events: seq<Event>, k: nat) {
    && k < |events| && events[k].Submit?
    && forall j :: k < j < |events| && events[j].Submit? ==> events[j].topic != events[k].topic
  }

  lemma LastSubmitIsNewest(events: seq<Event>, k: nat)
    requires Run(NEW_PUBLISHER, events).Some? && LastSubmit(events, k)
    ensures var p, u := Run(NEW_PUBLISHER, events).value, SubmittedBy(events, k);
            Genuine(p, u) && Newest(p, u)
  {
    SubmissionsAreKept(events);
    PlaceOfEvent(events, k);
    var p, u := Run(NEW_PUBLISHER, events).value, SubmittedBy(events, k);
    forall n | u.number < n < |p.submitted| ensures p.submitted[n].topic != u.topic {
      var j := EventOfPlace(events, n);
      RunKeepsInv(NEW_PUBLISHER, events);
    }
  }

  /** The newest value of a topic is pending, in flight, or its last confirmed one. */
  ghost predicate Kept(p: Publisher, u: Update) {
    u in p.pending || p.inflight == Some(u) || LastConfirmed(p, u)
  }

  lemma LastSubmitIsKept(events: seq<Event>, k: nat)
    requires Run(NEW_PUBLISHER, events).Some? && LastSubmit(events, k)
    ensures Kept(Run(NEW_PUBLISHER, events).value, SubmittedBy(events, k))
  {
    RunKeepsInv(NEW_PUBLISHER, events);
    LastSubmitIsNewest(events, k);
    var p, u := Run(NEW_PUBLISHER, events).value, SubmittedBy(events, k);
    assert p.submitted[u.number] == u;
    if u in p.confirmed {
      NewestConfirmedIsLast(p, u);
    }
  }

  /** Some event of the run submitted this update. */
  ghost predicate WasSubmitted(events: seq<Event>, u: Update) {
    exists k :: 0 <= k < |events| && events[k].Submit? && u == SubmittedBy(events, k)
  }

  lemma ConfirmedWasSubmitted(events: seq<Event>, u: Update)
    requires Run(NEW_PUBLISHER, events).Some? && u in Run(NEW_PUBLISHER, events).value.confirmed
    ensures WasSubmitted(events, u)
  {
    RunKeepsInv(NEW_PUBLISHER, events);
    SubmissionsAreKept(events);
    var p := Run(NEW_PUBLISHER, events).value;
    assert Genuine(p, u);
    var k := EventOfPlace(events, u.number);
  }

  /**
   * Newest wins, without loss. After any run, the payload that the last `Submit` event of a
   * topic carried is pending, in flight, or the topic's last confirmed value; the confirmed
   * values of a topic are in submission order, so a stale retry never follows a newer value;
   * and nothing was ever published that no event submitted.
   */
  lemma NewestWinsWithoutLoss(events: seq<Event>)
    requires Run(NEW_PUBLISHER, events).Some?
    ensures var p := Run(NEW_PUBLISHER, events).value;
            && InOrder(p.confirmed)
            && (forall k :: LastSubmit(events, k) ==> Kept(p, SubmittedBy(events, k)))
            && (forall u :: u in p.confirmed ==> WasSubmitted(events, u))
  {
    RunKeepsInv(NEW_PUBLISHER, events);
    var p := Run(NEW_PUBLISHER, events).value;
    forall k | LastSubmit(events, k) ensures Kept(p, SubmittedBy(events, k)) {
      LastSubmitIsKept(events, k);
    }
    forall u | u in p.confirmed ensures WasSubmitted(events, u) {
      ConfirmedWasSubmitted(events, u);
    }
  }

  /** Idle means that the last value submitted of every topic is its last confirmed one. */
  lemma IdleMeansDrained(events: seq<Event>)
    requires Run(NEW_PUBLISHER, events).Some? && Run(NEW_PUBLISHER, events).value.idle
    ensures var p := Run(NEW_PUBLISHER, events).value;
            && p.pending == [] && p.inflight.None? && p.attempted == |p.confirmed| + p.failed
            && forall k :: LastSubmit(events, k) ==> LastConfirmed(p, SubmittedBy(events, k))
  {
    RunKeepsInv(NEW_PUBLISHER, events);
    NewestWinsWithoutLoss(events);
  }

  /** No wakeup is lost: with work pending, the worker always has an event that will make it act. */
  lemma {:induction false} PendingWorkIsNeverStranded(events: seq<Event>)
    requires Run(NEW_PUBLISHER, events).Some? && Run(NEW_PUBLISHER, events).value.pending != []
    ensures var p := Run(NEW_PUBLISHER, events).value;
            match p.phase
            case Waiting => p.wakeup && p.Enabled(Wake) && p.Step(Wake).inflight == Some(p.pending[0])
            case Publishing => p.Enabled(Confirmed) && p.Step(Confirmed).inflight == Some(p.pending[0])
            case BackingOff => p.Enabled(BackoffOver) && p.Step(BackoffOver).wakeup
  {
    RunKeepsInv(NEW_PUBLISHER, events);
  }

  ghost function PopCount(start: Publisher, events: seq<Event>): nat
    requires Run(start, events).Some?
  {
    if events == [] then 0
    else
      var n := |events| - 1;
      PopCount(start, events[..n]) + if Run(start, events[..n]).value.Pops(events[n]) then 1 else 0
  }

  /** One event moves a pending topic forward by exactly the topics it takes out. */
  lemma StepMovesTopic(p: Publisher, e: Event, topic: string)
    requires Inv(p) && p.Enabled(e)
    requires Has(p.pending, topic)
    requires p.Pops(e) ==> Position(p.pending, topic) > 0
    ensures var q := p.Step(e);
            Has(q.pending, topic) && Position(q.pending, topic) == Position(p.pending, topic) - if p.Pops(e) then 1
                else 0
  {
    var q, k := p.Step(e), Position(p.pending, topic);
    if p.Pops(e) {
      assert q.pending == p.pending[1..];
      PositionIsTheIndex(q.pending, k - 1);
    } else {
      TopicStaysPut(p, e, k);
      PositionIsTheIndex(q.pending, k);
    }
  }

  /** Without a pop, no topic in the queue moves. */
  lemma TopicStaysPut(p: Publisher, e: Event, k: nat)
    requires p.Enabled(e) && !p.Pops(e) && k < |p.pending|
    ensures var q := p.Step(e).pending;
            k < |q| && q[k].topic == p.pending[k].topic && forall i :: 0 <= i < k ==> q[i].topic == p.pending[i].topic
  {
  }

  lemma PositionIsTheIndex(pending: seq<Update>, k: nat)
    requires k < |pending|
    requires forall i :: 0 <= i < k ==> pending[i].topic != pending[k].topic
    ensures Position(pending, pending[k].topic) == k
  {
  }

  /**
   * A topic with k topics ahead of it is still pending, with k - j ahead, after any j <= k
   * further pops, whatever is resubmitted or fails meanwhile.
   */
  lemma {:induction false} PendingTopicKeepsItsTurn(start: Publisher, events: seq<Event>, topic: string)
    requires Inv(start) && Run(start, events).Some?
    requires Has(start.pending, topic) && PopCount(start, events) <= Position(start.pending, topic)
    ensures var p := Run(start, events).value;
            && Has(p.pending, topic)
            && Position(p.pending, topic) == Position(start.pending, topic) - PopCount(start, events)
  {
    if events != [] {
      var n := |events| - 1;
      PendingTopicKeepsItsTurn(start, events[..n], topic);
      RunKeepsInv(start, events[..n]);
      StepMovesTopic(Run(start, events[..n]).value, events[n], topic);
    }
  }

  /**
   * Fairness. A topic with k topics ahead of it is taken by exactly the (k+1)-th pop from
   * then on: not by any of the k pops before, whatever is resubmitted or fails meanwhile.
   */
  lemma {:induction false} TopicIsPoppedInTurn(start: Publisher, events: seq<Event>, e: Event, topic: string)
    requires Inv(start) && Has(start.pending, topic)
    requires Run(start, events).Some? && Run(start, events).value.Enabled(e) && Run(start, events).value.Pops(e)
    requires PopCount(start, events) <= Position(start.pending, topic)
    ensures var popped := Run(start, events).value.Step(e).inflight;
            popped.Some? && (popped.value.topic == topic <==> PopCount(start, events) == Position(start.pending, topic))
  {
    var p := Run(start, events).value;
    PendingTopicKeepsItsTurn(start, events, topic);
    assert p.Step(e).inflight == Some(p.pending[0]);
  }

  // ---- The class ----------------------------------------------------------

  /** A Python dictionary as its keys in insertion order and its values. */
  ghost predicate IsDictionary(order: seq<string>, values: map<string, Update>) {
    if order == [] then values == map[]
    else
      && order[0] in values && values[order[0]].topic == order[0] && order[0] !in order[1..]
      && IsDictionary(order[1..], values - {order[0]})
  }

  ghost function Items(order: seq<string>, values: map<string, Update>): (items: seq<Update>)
    requires IsDictionary(order, values)
  {
    if order == [] then [] else [values[order[0]]] + Items(order[1..], values - {order[0]})
  }

  lemma {:induction false} KeysAreTopics(order: seq<string>, values: map<string, Update>, topic: string)
    requires IsDictionary(order, values)
    ensures topic in values <==> Has(Items(order, values), topic)
    ensures topic in values <==> topic in order
  {
    if order != [] {
      KeysAreTopics(order[1..], values - {order[0]}, topic);
      assert Items(order, values)[1..] == Items(order[1..], values - {order[0]});
    }
  }

  /** Assigning an existing key keeps its place. */
  lemma {:induction false} AssignInPlace(order: seq<string>, values: map<string, Update>, u: Update)
    requires IsDictionary(order, values) && u.topic in values
    ensures IsDictionary(order, values[u.topic := u])
    ensures var items := Items(order, values);
            Has(items, u.topic) && Items(order, values[u.topic := u]) == items[Position(items, u.topic) := u]
  {
    KeysAreTopics(order, values, u.topic);
    var rest := values - {order[0]};
    assert Items(order, values)[1..] == Items(order[1..], rest);
    if order[0] == u.topic {
      assert values[u.topic := u] - {u.topic} == rest;
      assert Items(order, values[u.topic := u]) == [u] + Items(order[1..], rest);
    } else {
      AssignInPlace(order[1..], rest, u);
      assert values[u.topic := u] - {order[0]} == rest[u.topic := u];
      var head, tail := [values[order[0]]], Items(order[1..], rest);
      assert Items(order, values) == head + tail && head[0].topic != u.topic;
      assert (head + tail)[1..] == tail;
      assert Items(order, values[u.topic := u]) == head + Items(order[1..], rest[u.topic := u]);
    }
  }

  /** Assigning a new key appends it. */
  lemma {:induction false} AssignAtEnd(order: seq<string>, values: map<string, Update>, u: Update)
    requires IsDictionary(order, values) && u.topic !in values
    ensures IsDictionary(order + [u.topic], values[u.topic := u])
    ensures Items(order + [u.topic], values[u.topic := u]) == Items(order, values) + [u]
  {
    var more := order + [u.topic];
    if order == [] {
      assert more[1..] == [] && values[u.topic := u] - {u.topic} == map[];
    } else {
      KeysAreTopics(order, values, u.topic);
      AssignAtEnd(order[1..], values - {order[0]}, u);
      assert more[1..] == order[1..] + [u.topic];
      assert values[u.topic := u] - {order[0]} == (values - {order[0]})[u.topic := u];
    }
  }

  class UnitStatePublisher {
    /** The pending dictionary. */
    var order: seq<string>
    var values: map<string, Update>
    /** The update the worker is publishing, while it is suspended in the publish. */
    var inflight: Option<Update>
    var phase: Phase
    var wakeup: bool
    var idle: bool
    var attempted: nat
    var failed: nat
    var failureStreak: nat
    var submissions: nat
    ghost var submitted: seq<Update>
    ghost var confirmed: seq<Update>

    ghost predicate Valid()
      reads this
    {
      IsDictionary(order, values) && submissions == |submitted|
    }

    ghost function View(): Publisher
      reads this
      requires Valid()
    {
      Publisher(Items(order, values), inflight, phase, wakeup, idle, attempted, failed, submitted, confirmed)
    }

    constructor ()
      ensures Valid() && View() == NEW_PUBLISHER
    {
      order, values := [], map[];
      inflight := None;
      phase := Waiting;
      wakeup, idle := false, true;
      attempted, failed, failureStreak, submissions := 0, 0, 0, 0;
      submitted, confirmed := [], [];
    }

    method Submit(topic: string, payload: string)
      requires Valid()
      modifies this
      ensures Valid() && View() == old(View()).Step(Event.Submit(topic, payload))
      ensures submitted == old(submitted) + [Update(topic, |old(submitted)|, payload)]
      ensures topic in values && values[topic].payload == payload
    {
      var u := Update(topic, submissions, payload);
      KeysAreTopics(order, values, topic);
      if topic in values {
        AssignInPlace(order, values, u);
      } else {
        AssignAtEnd(order, values, u);
        order := order + [topic];
      }
      values := values[topic := u];
      submissions := submissions + 1;
      submitted := submitted + [u];
      idle := false;
      wakeup := true;
    }

    /** The inner loop's head: pop the oldest topic, or report idle and wait. */
    method TakeNext()
      requires Valid()
      modifies this`order, this`values, this`inflight, this`phase, this`idle, this`attempted
      ensures Valid() && View() == old(View()).Drain()
    {
      if |order| == 0 {
        idle := true;
        phase := Waiting;
        return;
      }
      assert Items(order, values)[1..] == Items(order[1..], values - {order[0]});
      var topic := order[0];
      inflight := Some(values[topic]);
      order, values := order[1..], values - {topic};
      phase := Publishing;
      attempted := attempted + 1;
    }

    method WakeUp()
      requires Valid() && View().Enabled(Wake)
      modifies this
      ensures Valid() && View() == old(View()).Step(Wake)
    {
      wakeup := false;
      TakeNext();
    }

    method PublishConfirmed()
      requires Valid() && View().Enabled(Confirmed)
      modifies this
      ensures Valid() && View() == old(View()).Step(Confirmed)
      ensures failureStreak == 0
    {
      failureStreak := 0;
      confirmed := confirmed + [inflight.value];
      inflight := None;
      TakeNext();
    }

    /** A failed update goes to the back, unless something newer for its topic is already waiting. */
    method Requeue(unit: Update)
      requires Valid()
      modifies this`order, this`values
      ensures Valid()
      ensures var before := old(View());
              View() == before.(pending := if Has(before.pending, unit.topic) then before.pending
                  else before.pending + [unit])
    {
      KeysAreTopics(order, values, unit.topic);
      if unit.topic !in values {
        AssignAtEnd(order, values, unit);
        order, values := order + [unit.topic], values[unit.topic := unit];
      }
    }

    method PublishFailed()
      requires Valid() && View().Enabled(Failed)
      modifies this
      ensures Valid() && View() == old(View()).Step(Failed)
      ensures failureStreak == old(failureStreak) + 1
    {
      Requeue(inflight.value);
      failed := failed + 1;
      failureStreak := failureStreak + 1;
      inflight := None;
      phase := BackingOff;
    }

    method BackoffElapsed()
      requires Valid() && View().Enabled(BackoffOver)
      modifies this
      ensures Valid() && View() == old(View()).Step(BackoffOver)
    {
      wakeup := true;
      phase := Waiting;
      if |order| == 0 {
        idle := true;
      }
    }
  }
}
