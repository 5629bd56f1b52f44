/**
 * The reconnect policy of RpcConsumer.connect, as a state machine over the
 * consumer's reconnectTimes counter. The connect future's listener and the retry
 * task it schedules are the events; what they do besides counting are the actions.
 */
module Reconnect {
  import opened Seqs

  /** RpcConsumer.RETRY_TIME: seconds between a failed connect and the retry. */
  const RETRY_TIME: nat := 5
  /** RpcConsumer.MAX_RECONNECT_TIMES */
  const MAX_RECONNECT_TIMES: int := 3

  datatype Event =
    | ConnectSucceeded   // the connect listener runs and the future succeeded
    | ConnectFailed      // the connect listener runs and the future failed
    | RetryDue           // the task scheduled after a failure runs

  datatype Action =
    | ScheduleRetry(delaySeconds: nat)  // loop.schedule(task, RETRY_TIME, SECONDS)
    | CloseAndRemove                    // close the channel, then remove this consumer from the factory
    | Connect                           // call connect() again

  datatype Outcome = Outcome(reconnectTimes: int, actions: seq<Action>)

  /** What one event does to the counter, and what it sets off. */
  function Step(reconnectTimes: int, e: Event): (r: Outcome)
    ensures e == ConnectSucceeded ==> r.reconnectTimes == 0 && r.actions == []
    ensures e == ConnectFailed ==> r.reconnectTimes == reconnectTimes + 1 && r.actions == [ScheduleRetry(RETRY_TIME)]
    ensures e == RetryDue ==> r.reconnectTimes == reconnectTimes && r.actions != [] && r.actions[|r.actions| - 1] == Connect
    ensures e == RetryDue ==> (CloseAndRemove in r.actions <==> reconnectTimes == MAX_RECONNECT_TIMES)
  {
    match e
    case ConnectSucceeded => Outcome(0, [])
    case ConnectFailed => Outcome(reconnectTimes + 1, [ScheduleRetry(RETRY_TIME)])
    case RetryDue =>
      if reconnectTimes == MAX_RECONNECT_TIMES then Outcome(reconnectTimes, [CloseAndRemove, Connect])
      else Outcome(reconnectTimes, [Connect])
  }

  /** The counter after a sequence of events, and every action they set off, in order. */
  function Run(reconnectTimes: int, events: seq<Event>): (r: Outcome)
  {
    if events == [] then Outcome(reconnectTimes, [])
    else
      var before := Run(reconnectTimes, events[..|events| - 1]);
      var last := Step(before.reconnectTimes, events[|events| - 1]);
      Outcome(last.reconnectTimes, before.actions + last.actions)
  }

  lemma RunAppend(reconnectTimes: int, events: seq<Event>, e: Event)
    ensures var before := Run(reconnectTimes, events);
      var last := Step(before.reconnectTimes, e);
      Run(reconnectTimes, events + [e]) == Outcome(last.reconnectTimes, before.actions + last.actions)
  {
    assert (events + [e])[..|events|] == events;
  }

  // ---------------------------------------------------------------------------
  // The counter

  /** The position just after the last successful connect, or 0 if there was none. */
  function AfterLastSuccess(events: seq<Event>): (i: nat)
    ensures i <= |events|
    ensures ConnectSucceeded !in events[i..]
    ensures i > 0 ==> events[i - 1] == ConnectSucceeded
  {
    if events == [] then 0
    else if events[|events| - 1] == ConnectSucceeded then |events|
    else
      var i := AfterLastSuccess(events[..|events| - 1]);
      assert events[i..] == events[..|events| - 1][i..] + [events[|events| - 1]];
      i
  }

  lemma AfterLastSuccessAppend(events: seq<Event>, e: Event)
    ensures AfterLastSuccess(events + [e]) == if e == ConnectSucceeded then |events| + 1 else AfterLastSuccess(events)
  {
    assert (events + [e])[..|events|] == events;
  }

  /** The counter is the number of failures since the last success, or since the start. */
  ghost predicate CountsFailures(reconnectTimes: int, events: seq<Event>)
  {
    var i := AfterLastSuccess(events);
    Run(reconnectTimes, events).reconnectTimes == (if i == 0 then reconnectTimes else 0) + Count(ConnectFailed, events[i..])
  }

  lemma CountsFailuresAppend(reconnectTimes: int, events: seq<Event>, e: Event)
    requires CountsFailures(reconnectTimes, events)
    ensures CountsFailures(reconnectTimes, events + [e])
  {
    RunAppend(reconnectTimes, events, e);
    AfterLastSuccessAppend(events, e);
    if e != ConnectSucceeded {
      var i := AfterLastSuccess(events);
      assert (events + [e])[i..] == events[i..] + [e];
      CountAppend(ConnectFailed, events[i..], [e]);
    }
  }

  /**
   * reconnectTimes counts the failed connects since the last successful one
   * (or since the start, on top of the starting value, if none succeeded).
   */
  lemma {:induction false} CounterCountsFailures(reconnectTimes: int, events: seq<Event>)
    ensures var i := AfterLastSuccess(events);
      Run(reconnectTimes, events).reconnectTimes
        == (if i == 0 then reconnectTimes else 0) + Count(ConnectFailed, events[i..])
  {
    if events != [] {
      var n := |events|;
      var init, e := events[..n - 1], events[n - 1];
      assert events == init + [e];
      CounterCountsFailures(reconnectTimes, init);
      CountsFailuresAppend(reconnectTimes, init, e);
    }
  }

  // ---------------------------------------------------------------------------
  // Closing and removing

  /** Every retry task runs right after the failure that scheduled it. */
  ghost predicate RetriesFollowFailures(events: seq<Event>)
  {
    forall i :: 0 <= i < |events| && events[i] == RetryDue ==> i > 0 && events[i - 1] == ConnectFailed
  }

  /**
   * Because the test is `==` and only a success resets the counter, a run of
   * failures with no success in between closes and removes the consumer at most once.
   */
  lemma AtMostOneRemovalPerFailureRun(reconnectTimes: int, events: seq<Event>)
    requires ConnectSucceeded !in events
    requires RetriesFollowFailures(events)
    ensures Count(CloseAndRemove, Run(reconnectTimes, events).actions) <= 1
  {
    RemovalInvariant(reconnectTimes, events);
  }

  lemma {:induction false} RemovalInvariant(reconnectTimes: int, events: seq<Event>)
    requires ConnectSucceeded !in events
    requires RetriesFollowFailures(events)
    ensures var r := Run(reconnectTimes, events);
      var removals := Count(CloseAndRemove, r.actions);
      && removals <= 1
      && (removals == 1 ==> r.reconnectTimes >= MAX_RECONNECT_TIMES)
      && (removals == 1 && r.reconnectTimes == MAX_RECONNECT_TIMES ==> events[|events| - 1] != ConnectFailed)
  {
    if events != [] {
      var n := |events|;
      var init, e := events[..n - 1], events[n - 1];
      assert events == init + [e];
      assert RetriesFollowFailures(init) by {
        forall i | 0 <= i < |init| && init[i] == RetryDue
          ensures i > 0 && init[i - 1] == ConnectFailed
        {
          assert events[i] == init[i];
        }
      }
      RemovalInvariant(reconnectTimes, init);
      RunAppend(reconnectTimes, init, e);
      var before := Run(reconnectTimes, init);
      CountAppend(CloseAndRemove, before.actions, Step(before.reconnectTimes, e).actions);
      if e == RetryDue {
        assert init[n - 2] == ConnectFailed;
      }
    }
  }

  /** n failures, each followed by the retry it schedules. */
  function FailingRetries(n: nat): (events: seq<Event>)
    ensures |events| == 2 * n
  {
    if n == 0 then [] else FailingRetries(n - 1) + [ConnectFailed, RetryDue]
  }

  /** What a failure that brings the counter to c, and its retry, set off. */
  function RetryActions(c: int): seq<Action>
  {
    [ScheduleRetry(RETRY_TIME)] + (if c == MAX_RECONNECT_TIMES then [CloseAndRemove, Connect] else [Connect])
  }

  lemma RetryActionCounts(c: int)
    ensures Count(ScheduleRetry(RETRY_TIME), RetryActions(c)) == 1
    ensures Count(Connect, RetryActions(c)) == 1
    ensures Count(CloseAndRemove, RetryActions(c)) == (if c == MAX_RECONNECT_TIMES then 1 else 0)
  {
    var added := RetryActions(c);
    var tail := if c == MAX_RECONNECT_TIMES then [CloseAndRemove, Connect] else [Connect];
    assert added == [ScheduleRetry(RETRY_TIME)] + tail;
    CountAppend(ScheduleRetry(RETRY_TIME), [ScheduleRetry(RETRY_TIME)], tail);
    CountAppend(Connect, [ScheduleRetry(RETRY_TIME)], tail);
    CountAppend(CloseAndRemove, [ScheduleRetry(RETRY_TIME)], tail);
    if c == MAX_RECONNECT_TIMES {
      assert tail == [CloseAndRemove] + [Connect];
      CountAppend(ScheduleRetry(RETRY_TIME), [CloseAndRemove], [Connect]);
      CountAppend(Connect, [CloseAndRemove], [Connect]);
      CountAppend(CloseAndRemove, [CloseAndRemove], [Connect]);
    }
  }

  /** One failure followed by its retry: the counter goes up by one, and the retry reconnects. */
  lemma FailThenRetry(reconnectTimes: int, events: seq<Event>)
    ensures var before := Run(reconnectTimes, events);
      var c := before.reconnectTimes + 1;
      Run(reconnectTimes, events + [ConnectFailed, RetryDue]) == Outcome(c, before.actions + RetryActions(c))
  {
    RunAppend(reconnectTimes, events, ConnectFailed);
    RunAppend(reconnectTimes, events + [ConnectFailed], RetryDue);
    assert events + [ConnectFailed, RetryDue] == events + [ConnectFailed] + [RetryDue];
    var before := Run(reconnectTimes, events);
    var c := before.reconnectTimes + 1;
    assert before.actions + [ScheduleRetry(RETRY_TIME)] + Step(c, RetryDue).actions == before.actions + RetryActions(c);
  }

  /**
   * Against an endpoint that never accepts, starting from a fresh counter: after
   * n failed attempts the counter is n, n retries were each scheduled
   * RETRY_TIME seconds after their failure, connect() was called again n times
   * (including after the removal: the retry logic itself has no stop; whether
   * those connects get anywhere once the removal has shut down the event-loop
   * group is outside this model), and the consumer was closed and removed once
   * if n reached 3.
   */
  lemma {:induction false} PersistentFailure(n: nat)
    ensures var r := Run(0, FailingRetries(n));
      && r.reconnectTimes == n
      && Count(ScheduleRetry(RETRY_TIME), r.actions) == n
      && Count(Connect, r.actions) == n
      && Count(CloseAndRemove, r.actions) == (if n >= MAX_RECONNECT_TIMES then 1 else 0)
  {
    if n > 0 {
      var prev := FailingRetries(n - 1);
      assert FailingRetries(n) == prev + [ConnectFailed, RetryDue];
      PersistentFailure(n - 1);
      FailThenRetry(0, prev);
      var before := Run(0, prev).actions;
      RetryActionCounts(n);
      CountAppend(ScheduleRetry(RETRY_TIME), before, RetryActions(n));
      CountAppend(Connect, before, RetryActions(n));
      CountAppend(CloseAndRemove, before, RetryActions(n));
    }
  }
}
