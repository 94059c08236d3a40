/**
 * server.py, run_bounded and run_startup_stage: retries that stay bounded against operations
 * that may do anything -- finish, fail, outlive their deadline, ignore cancellation -- and
 * callers that may be cancelled at any time.
 */
module Startup {
  import opened Basics

  const STARTUP_ATTEMPTS := 6
  const STARTUP_BACKOFF_SECONDS := [1.0, 2.0, 4.0, 8.0, 16.0]
  const STARTUP_BACKOFF_CAP_SECONDS := 30.0
  const STARTUP_BACKOFF_JITTER := 0.2
  const BLE_CLEANUP_TIMEOUT := 10.0
  const BLE_CANCEL_GRACE := 10.0

  datatype StageName = Discovering | Connecting

  datatype Category =
    | BleDiscoveryInProgress | BleDiscoveryFailed | BleConnectFailed | NetworkNotFound | Configuration | Unknown

  /** The only failures that are retried. */
  predicate Transient(c: Category) {
    c in {BleDiscoveryInProgress, BleDiscoveryFailed, BleConnectFailed, NetworkNotFound}
  }

  /** What an exception and its chain of causes show of themselves. */
  datatype Error = Error(inProgress: bool, notFound: bool, misconfigured: bool, bluetoothOrTimeout: bool)

  const TIMEOUT_ERROR := Error(false, false, false, true)

  /** classify_startup_error. */
  function Classify(e: Error, stage: StageName): Category {
    if e.inProgress then BleDiscoveryInProgress
    else if e.notFound then NetworkNotFound
    else if e.misconfigured then Configuration
    else if e.bluetoothOrTimeout then (if stage == Discovering then BleDiscoveryFailed else BleConnectFailed)
    else Unknown
  }

  /** An error that may pass by itself: Bluetooth is busy or failing, or the network is not in sight. */
  ghost predicate MayPass(e: Error) {
    e.inProgress || e.notFound || (e.bluetoothOrTimeout && !e.misconfigured)
  }

  /** Every category, exactly; and what is retried is exactly what may pass by itself. */
  lemma ClassifiedExactly(e: Error, stage: StageName)
    ensures var c := Classify(e, stage);
            && (c == BleDiscoveryInProgress <==> e.inProgress)
            && (c == NetworkNotFound <==> !e.inProgress && e.notFound)
            && (c == Configuration <==> !e.inProgress && !e.notFound && e.misconfigured)
            && (c == BleDiscoveryFailed <==>
                  !e.inProgress && !e.notFound && !e.misconfigured && e.bluetoothOrTimeout && stage == Discovering)
            && (c == BleConnectFailed <==>
                  !e.inProgress && !e.notFound && !e.misconfigured && e.bluetoothOrTimeout && stage == Connecting)
            && (c == Unknown <==> !e.inProgress && !e.notFound && !e.misconfigured && !e.bluetoothOrTimeout)
            && (Transient(c) <==> MayPass(e))
  {
  }

  /** startup_backoff, for a random number below one. */
  function Backoff(attempt: nat, random: Fraction): (seconds: real)
  {
    var cap := STARTUP_BACKOFF_CAP_SECONDS;
    var base := if attempt < |STARTUP_BACKOFF_SECONDS| then STARTUP_BACKOFF_SECONDS[attempt] else cap;
    (if base < cap then base else cap) * (1.0 + STARTUP_BACKOFF_JITTER * random)
  }

  type Duration = x: real | 0.0 <= x
  type Fraction = x: real | 0.0 <= x < 1.0

  /**
   * What an awaited operation would do, and what happens to its caller, counted from its
   * start; nothing relates any of it to a deadline. Uncancelled it would end by itself after
   * `ends`, if ever, returning or raising; cancelled, it is done `unwind` later, if ever; and
   * its caller is cancelled at `callerCancelled`, if ever.
   */
  datatype Operation = Operation(
    ends: Option<Duration>, raises: Option<Error>, unwind: Option<Duration>, callerCancelled: Option<Duration>)
  {
    /** The operation is over by this time, before anything cancels it. */
    predicate EndsBy(limit: real) {
      ends.Some? && ends.value <= limit && !(callerCancelled.Some? && callerCancelled.value < ends.value)
    }

    /** Cancelled at its limit, it is done within the grace. */
    predicate UnwindsInTime() {
      unwind.Some? && unwind.value <= BLE_CANCEL_GRACE
    }

    /** How long a cancelled operation is waited for. */
    function Grace(): Duration {
      if UnwindsInTime() then unwind.value else BLE_CANCEL_GRACE
    }

    /** The caller is cancelled while it still waits: for the operation, or for it to unwind. */
    predicate Interrupted(limit: real) {
      !EndsBy(limit) && callerCancelled.Some? && callerCancelled.value < limit + Grace()
    }
  }

  datatype Ending = Returned | Raised(error: Error) | TimedOut | Wedged | Cancelled

  /** How bounding the operation must end, whichever way the waiting is done. */
  function EndingOf(o: Operation, limit: real): (ending: Ending) {
    if o.EndsBy(limit) then (if o.raises.Some? then Raised(o.raises.value) else Returned)
    else if o.Interrupted(limit) then Cancelled
    else if o.UnwindsInTime() then TimedOut
    else Wedged
  }

  /** The category of an attempt that failed without wedging. */
  function FailureOf(o: Operation, limit: real, stage: StageName): Option<Category> {
    match EndingOf(o, limit)
    case Raised(e) => Some(Classify(e, stage))
    case TimedOut => Some(Classify(TIMEOUT_ERROR, stage))
    case _ => None
  }

  datatype Outcome = Succeeded | Failed(category: Category, wedged: bool) | Interrupted

  datatype Work = Try(attempt: nat) | Cleanup(attempt: nat)

  datatype Event = Begins(work: Work) | Ends(work: Work) {
    function Apply(alive: set<Work>): set<Work> {
      if Begins? then alive + {work} else alive - {work}
    }

    function Calls(): seq<nat> {
      if Begins? && work.Try? then [work.attempt] else []
    }
  }

  /** Which work is running after a log. */
  ghost function Alive(log: seq<Event>): set<Work> {
    if log == [] then {} else log[|log| - 1].Apply(Alive(log[..|log| - 1]))
  }

  /** Work only begins when nothing else is running, at every point of the log. */
  ghost predicate OneAtATime(log: seq<Event>) {
    forall i :: 0 <= i < |log| && log[i].Begins? ==> Alive(log[..i]) == {}
  }

  /** The attempts in the order they began. */
  ghost function Attempts(log: seq<Event>): seq<nat> {
    if log == [] then [] else Attempts(log[..|log| - 1]) + log[|log| - 1].Calls()
  }

  ghost function Numbers(n: nat): (numbers: seq<nat>) {
    if n == 0 then [] else Numbers(n - 1) + [n - 1]
  }

  lemma {:induction false} NumbersCountUp(n: nat)
    ensures |Numbers(n)| == n && CountsUp(Numbers(n))
  {
    if n > 0 {
      NumbersCountUp(n - 1);
    }
  }

  ghost predicate CountsUp(attempts: seq<nat>) {
    forall i :: 0 <= i < |attempts| ==> attempts[i] == i
  }

  lemma LogGrows(log: seq<Event>, e: Event)
    requires OneAtATime(log) && (e.Begins? ==> Alive(log) == {})
    ensures OneAtATime(log + [e])
    ensures Alive(log + [e]) == e.Apply(Alive(log))
    ensures Attempts(log + [e]) == Attempts(log) + e.Calls()
  {
    var more := log + [e];
    assert more[..|log|] == log;
    forall i | 0 <= i < |more| && more[i].Begins? ensures Alive(more[..i]) == {} {
      if i < |log| {
        assert more[..i] == log[..i];
      }
    }
  }

  /** The time one attempt, its cancellation and its cleanup may take. */
  function AttemptLimit(deadline: real): real {
    deadline + BLE_CANCEL_GRACE + BLE_CLEANUP_TIMEOUT + BLE_CANCEL_GRACE
  }

  /** The time the first n attempts and the backoffs after them may take. */
  function TimeLimit(n: nat, deadline: real): real {
    if n == 0 then 0.0
    else
      TimeLimit(n - 1, deadline) + AttemptLimit(deadline)
      + if n - 1 < |STARTUP_BACKOFF_SECONDS| then 1.2 * STARTUP_BACKOFF_SECONDS[n - 1] else 0.0
  }

  /**
   * Six attempts, each with its cancellation, cleanup and the cleanup's cancellation of 10 s each,
   * take at most six of these plus 1.2 times the backoffs of 1, 2, 4, 8 and 16 s.
   */
  lemma SixAttempts(deadline: real)
    ensures TimeLimit(6, deadline) == 6.0 * (deadline + 30.0) + 1.2 * (1.0 + 2.0 + 4.0 + 8.0 + 16.0)
  {
    var once := AttemptLimit(deadline);
    assert TimeLimit(1, deadline) == once + 1.2;
    assert TimeLimit(2, deadline) == 2.0 * once + 1.2 * 3.0;
    assert TimeLimit(3, deadline) == 3.0 * once + 1.2 * 7.0;
    assert TimeLimit(4, deadline) == 4.0 * once + 1.2 * 15.0;
    assert TimeLimit(5, deadline) == 5.0 * once + 1.2 * 31.0;
  }

  lemma BackoffIsBounded(attempt: nat, random: Fraction)
    requires attempt < |STARTUP_BACKOFF_SECONDS|
    ensures var base := STARTUP_BACKOFF_SECONDS[attempt];
            0.0 <= base <= Backoff(attempt, random) <= 1.2 * base
    ensures STARTUP_BACKOFF_SECONDS[attempt] == if attempt == 0 then 1.0 else 2.0 * STARTUP_BACKOFF_SECONDS[attempt - 1]
  {
    var base, jitter := STARTUP_BACKOFF_SECONDS[attempt], STARTUP_BACKOFF_JITTER * random;
    assert base in {1.0, 2.0, 4.0, 8.0, 16.0};
    assert Backoff(attempt, random) == base * (1.0 + jitter);
  }

  /** One stage: the clock and what it started and ended. */
  class Stage {
    const name: StageName
    const deadline: real
    /** Everything the environment decides, by attempt. */
    const operations: nat -> Operation
    const cleanups: nat -> Operation
    const random: nat -> Fraction
    const sleepCancelled: nat -> Option<Duration>
    var clock: real
    ghost var log: seq<Event>

    ghost predicate Valid()
      reads this
    {
      0.0 <= deadline && OneAtATime(log)
    }

    constructor (name: StageName, deadline: real, operations: nat -> Operation, cleanups: nat -> Operation,
                 random: nat -> Fraction, sleepCancelled: nat -> Option<Duration>, now: real)
      requires 0.0 <= deadline
      ensures Valid() && log == [] && clock == now && this.name == name && this.deadline == deadline
    {
      this.name, this.deadline := name, deadline;
      this.operations, this.cleanups, this.random, this.sleepCancelled := operations, cleanups, random, sleepCancelled;
      clock := now;
      log := [];
    }

    ghost method Note(e: Event)
      requires Valid() && (e.Begins? ==> Alive(log) == {})
      modifies this`log
      ensures Valid() && log == old(log) + [e]
      ensures Alive(log) == e.Apply(Alive(old(log))) && Attempts(log) == Attempts(old(log)) + e.Calls()
    {
      LogGrows(log, e);
      log := log + [e];
    }

    /** One asyncio.wait: up to `timeout` for the operation to be done at `done`; false if the caller was cancelled. */
    method Wait(o: Operation, began: real, done: Option<real>, timeout: real) returns (isDone: bool, undisturbed: bool)
      requires Valid() && began <= clock && 0.0 <= timeout
      modifies this`clock
      ensures Valid() && old(clock) <= clock <= old(clock) + timeout
      ensures undisturbed <==> !CancelledBefore(o, began, old(clock), WaitEnds(done, old(clock), timeout))
      ensures undisturbed ==> clock == WaitEnds(done, old(clock), timeout)
      ensures undisturbed ==> (isDone <==> done.Some? && done.value <= old(clock) + timeout)
    {
      var until := WaitEnds(done, clock, timeout);
      if o.callerCancelled.Some? && clock <= began + o.callerCancelled.value < until {
        clock := began + o.callerCancelled.value;
        return false, false;
      }
      isDone := done.Some? && done.value <= clock + timeout;
      clock := until;
      undisturbed := true;
    }

    /** When an undisturbed wait is over. */
    static function WaitEnds(done: Option<real>, now: real, timeout: real): real {
      if done.Some? && done.value <= now + timeout then (if done.value < now then now else done.value)
          else now + timeout
    }

    static predicate CancelledBefore(o: Operation, began: real, now: real, until: real) {
      o.callerCancelled.Some? && now <= began + o.callerCancelled.value < until
    }

    /** run_bounded: at most the limit plus the grace, whatever the operation and its caller do. */
    method RunBounded(work: Work, o: Operation, limit: real) returns (ending: Ending)
      requires Valid() && Alive(log) == {} && 0.0 <= limit
      modifies this
      ensures Valid() && old(clock) <= clock <= old(clock) + limit + BLE_CANCEL_GRACE
      ensures ending == EndingOf(o, limit)
      ensures ending != Wedged && ending != Cancelled ==> Alive(log) == {}
      ensures Alive(log) <= {work}
      ensures Attempts(log) == Attempts(old(log)) + Begins(work).Calls()
    {
      var began := clock;
      Note(Begins(work));
      var finished, waited := Wait(o, began, if o.ends.Some? then Some(began + o.ends.value) else None, limit);
      if !waited {
        WaitOutCancelled(work, o);
        return Cancelled;
      }
      if finished {
        Note(Ends(work));
        return if o.raises.Some? then Raised(o.raises.value) else Returned;
      }
      var done := if o.unwind.Some? then Some(clock + o.unwind.value) else None;
      var unwound, graced := Wait(o, began, done, BLE_CANCEL_GRACE);
      if !graced {
        return Cancelled;
      }
      if !unwound {
        return Wedged;
      }
      Note(Ends(work));
      return TimedOut;
    }

    /** The caller was cancelled: the operation is cancelled too, and given the grace. */
    method WaitOutCancelled(work: Work, o: Operation)
      requires Valid() && Alive(log) == {work}
      modifies this
      ensures Valid() && old(clock) <= clock <= old(clock) + BLE_CANCEL_GRACE
      ensures Alive(log) <= {work} && Attempts(log) == Attempts(old(log))
    {
      clock := clock + o.Grace();
      if o.UnwindsInTime() {
        Note(Ends(work));
      }
    }

    /** The attempt, or the cleanup after its failure, ignored its cancellation. */
    ghost predicate WedgedAt(attempt: nat, category: Category, withCleanup: bool) {
      || (EndingOf(operations(attempt), deadline) == Wedged && category == Classify(TIMEOUT_ERROR, name))
      || (withCleanup && EndingOf(cleanups(attempt), BLE_CLEANUP_TIMEOUT) == Wedged
          && FailureOf(operations(attempt), deadline, name) == Some(category))
    }

    /** The caller was cancelled during the attempt or the cleanup after its failure. */
    ghost predicate CancelledAt(attempt: nat, withCleanup: bool) {
      || EndingOf(operations(attempt), deadline) == Cancelled
      || (withCleanup && EndingOf(cleanups(attempt), BLE_CLEANUP_TIMEOUT) == Cancelled
          && FailureOf(operations(attempt), deadline, name).Some?)
    }

    /** One attempt and its cleanup: a failure to judge, or the end of the stage. */
    method RunAttempt(attempt: nat, withCleanup: bool) returns (failure: Option<Category>, end: Outcome)
      requires Valid() && Alive(log) == {}
      modifies this
      ensures Valid() && old(clock) <= clock <= old(clock) + AttemptLimit(deadline)
      ensures Attempts(log) == Attempts(old(log)) + [attempt]
      ensures failure.Some? ==> failure == FailureOf(operations(attempt), deadline, name) && Alive(log) == {}
      ensures failure.None? && end == Succeeded ==>
                EndingOf(operations(attempt), deadline) == Returned && Alive(log) == {}
      ensures failure.None? && end.Failed? ==> end.wedged && WedgedAt(attempt, end.category, withCleanup)
      ensures failure.None? && end.Interrupted? ==> CancelledAt(attempt, withCleanup)
    {
      var category;
      var ending := RunBounded(Try(attempt), operations(attempt), deadline);
      match ending {
        case Returned => return None, Succeeded;
        case Cancelled => return None, Interrupted;
        case Wedged => return None, Failed(Classify(TIMEOUT_ERROR, name), true);
        case TimedOut => category := Classify(TIMEOUT_ERROR, name);
        case Raised(e) => category := Classify(e, name);
      }
      if withCleanup {
        var cleaned := RunBounded(Cleanup(attempt), cleanups(attempt), BLE_CLEANUP_TIMEOUT);
        if cleaned == Wedged {
          return None, Failed(category, true);
        }
        if cleaned == Cancelled {
          return None, Interrupted;
        }
      }
      return Some(category), Interrupted;
    }

    /** Sleep before the next attempt; false if the caller was cancelled meanwhile. */
    method Pause(attempt: nat) returns (slept: bool)
      requires Valid() && attempt < |STARTUP_BACKOFF_SECONDS|
      modifies this`clock
      ensures Valid() && old(clock) <= clock <= old(clock) + 1.2 * STARTUP_BACKOFF_SECONDS[attempt]
      ensures slept ==> clock >= old(clock) + STARTUP_BACKOFF_SECONDS[attempt]
      ensures !slept ==> sleepCancelled(attempt).Some?
    {
      BackoffIsBounded(attempt, random(attempt));
      var pause := Backoff(attempt, random(attempt));
      var cut := sleepCancelled(attempt);
      if cut.Some? && cut.value < pause {
        clock := clock + cut.value;
        return false;
      }
      clock := clock + pause;
      return true;
    }

    /** Before each attempt: every earlier one failed transiently, and is over together with its cleanup. */
    ghost predicate Ongoing(attempt: nat, categories: seq<Category>, began: real)
      reads this
    {
      && |categories| == attempt && Attempts(log) == Numbers(attempt) && Alive(log) == {}
      && clock - began <= TimeLimit(attempt, deadline)
      && FailedInOrder(categories) && RetriedOnlyTransient(categories, attempt + 1)
    }

    /** After the last attempt. */
    ghost predicate Over(outcome: Outcome, attempt: nat, categories: seq<Category>, withCleanup: bool, began: real)
      reads this
    {
      && Attempts(log) == Numbers(attempt + 1)
      && clock - began <= TimeLimit(attempt + 1, deadline)
      && FailedInOrder(categories) && RetriedOnlyTransient(categories, attempt + 1)
      && EndsRightly(outcome, categories, attempt, withCleanup)
      && (outcome.Succeeded? || (outcome.Failed? && !outcome.wedged) ==> Alive(log) == {})
    }

    /** One attempt, its cleanup, and the pause before the next one if there is one. */
    method Round(attempt: nat, withCleanup: bool, ghost before: seq<Category>, ghost began: real)
      returns (outcome: Option<Outcome>, ghost categories: seq<Category>)
      requires Valid() && attempt < STARTUP_ATTEMPTS && Ongoing(attempt, before, began)
      modifies this
      ensures Valid()
      ensures outcome.None? ==> attempt + 1 < STARTUP_ATTEMPTS && Ongoing(attempt + 1, categories, began)
      ensures outcome.Some? ==> Over(outcome.value, attempt, categories, withCleanup, began)
    {
      TimeLimitGrows(attempt, deadline);
      var failure, end := RunAttempt(attempt, withCleanup);
      categories := before;
      if failure.None? {
        return Some(end), categories;
      }
      var category := failure.value;
      categories := categories + [category];
      if !Transient(category) || attempt + 1 == STARTUP_ATTEMPTS {
        return Some(Failed(category, false)), categories;
      }
      var slept := Pause(attempt);
      return if slept then None else Some(Interrupted), categories;
    }

    /**
     * run_startup_stage. At most six attempts, one piece of work at a time, only transient
     * failures retried, in bounded time; `categories` are the failures in order.
     */
    method Run(withCleanup: bool) returns (outcome: Outcome, ghost categories: seq<Category>)
      requires Valid() && log == []
      modifies this
      ensures OneAtATime(log) && CountsUp(Attempts(log)) && 1 <= |Attempts(log)| <= 6
      ensures clock - old(clock) <= 6.0 * (deadline + 30.0) + 1.2 * (1.0 + 2.0 + 4.0 + 8.0 + 16.0)
      ensures FailedInOrder(categories) && RetriedOnlyTransient(categories, |Attempts(log)|)
      ensures EndsRightly(outcome, categories, |Attempts(log)| - 1, withCleanup)
      ensures (outcome.Succeeded? || (outcome.Failed? && !outcome.wedged)) ==> Alive(log) == {}
    {
      SixAttempts(deadline);
      var attempt := 0;
      categories := [];
      while true
        invariant Valid() && 0 <= attempt < STARTUP_ATTEMPTS && Ongoing(attempt, categories, old(clock))
        decreases STARTUP_ATTEMPTS - attempt
      {
        TimeLimitGrows(attempt, deadline);
        NumbersCountUp(attempt + 1);
        var end;
        end, categories := Round(attempt, withCleanup, categories, old(clock));
        if end.Some? {
          return end.value, categories;
        }
        attempt := attempt + 1;
      }
    }

    /** Each category is that of the attempt with the same number. */
    ghost predicate FailedInOrder(categories: seq<Category>) {
      forall i :: 0 <= i < |categories| ==> FailureOf(operations(i), deadline, name) == Some(categories[i])
    }

    /** What an outcome says of the failures before it and of the last attempt. */
    ghost predicate EndsRightly(outcome: Outcome, categories: seq<Category>, last: nat, withCleanup: bool) {
      match outcome
      case Succeeded => EndingOf(operations(last), deadline) == Returned && |categories| == last
      case Interrupted =>
        || (|categories| == last && CancelledAt(last, withCleanup))
        || (|categories| == last + 1 && sleepCancelled(last).Some?)
      case Failed(category, wedged) =>
        if wedged then WedgedAt(last, category, withCleanup) && |categories| == last
        else
          && |categories| == last + 1 && category == categories[last]
          && (last + 1 == 6 || !Transient(category))
    }
  }

  /** Every attempt but the last followed a transient failure. */
  ghost predicate RetriedOnlyTransient(categories: seq<Category>, attempts: nat) {
    attempts <= |categories| + 1 && forall i :: 0 <= i < attempts - 1 ==> Transient(categories[i])
  }

  lemma {:induction false} TimeLimitGrows(n: nat, deadline: real)
    requires n < STARTUP_ATTEMPTS && 0.0 <= deadline
    ensures TimeLimit(n, deadline) + AttemptLimit(deadline)
            + (if n < 5 then 1.2 * STARTUP_BACKOFF_SECONDS[n] else 0.0) == TimeLimit(n + 1, deadline)
    ensures TimeLimit(n + 1, deadline) <= TimeLimit(STARTUP_ATTEMPTS, deadline)
    decreases STARTUP_ATTEMPTS - n
  {
    if n + 1 < STARTUP_ATTEMPTS {
      TimeLimitGrows(n + 1, deadline);
      assert n + 1 < 5 ==> STARTUP_BACKOFF_SECONDS[n + 1] >= 0.0;
    }
  }
}
