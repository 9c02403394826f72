/** The server status service: it consumes the server's status stream,
    publishes one status record per status event, and on a stream error
    publishes a "disconnected" status and reconnects after a constant
    delay. Stream events, stream errors and the retry timer are explicit
    input events; publishing, scheduling a retry and opening the stream are
    the outputs. */
module ServerStatusService {
  import opened Wrappers

  /** The published status record. */
  datatype ServerStatus = ServerStatus(up: bool, errorMessage: Option<string>)

  /** A status event's payload as the backend serializes it. */
  datatype StatusJson = StatusJson(up: bool, errorMsg: Option<string>)

  const StatusStreamPath: string := "/server/status-stream"
  const RetryIntervalMs: nat := 3000

  /** Stand-in for the localized "server disconnected" error text. */
  const ServerDisconnected: string := "SERVER_DISCONNECTED"

  /** The status published before any event: up, with no error message. */
  const InitialStatus: ServerStatus := ServerStatus(true, None)

  /** The status published on a stream error. */
  const DownStatus: ServerStatus := ServerStatus(false, Some(ServerDisconnected))

  /** `Streaming`: a stream is connecting or open. `Closed`: the stream
      failed and was closed; a retry is waiting. */
  datatype Link = Streaming | Closed

  /** `retries` holds the delays of the retry timers scheduled and not yet
      fired; `current` is the last published status. */
  datatype Monitor = Monitor(link: Link, retries: seq<nat>, current: ServerStatus)

  datatype StatusEvent = StatusArrived(payload: StatusJson) | StreamError | TimerFired

  datatype Effect = Publish(status: ServerStatus) | ScheduleRetry(delayMs: nat) | OpenStream(path: string)

  datatype Transition = Transition(monitor: Monitor, effects: seq<Effect>)

  /** `parseStatus`: the payload's fields, field for field. */
  function ParseStatus(json: StatusJson): ServerStatus
  {
    ServerStatus(json.up, json.errorMsg)
  }

  /** A stream is live exactly when no retry waits, at most one retry waits,
      and every waiting retry has the constant delay. */
  predicate Valid(m: Monitor) {
    && (m.link.Streaming? <==> |m.retries| == 0)
    && |m.retries| <= 1
    && forall i :: 0 <= i < |m.retries| ==> m.retries[i] == RetryIntervalMs
  }

  /** Construction: the initial status is current and the stream is opened. */
  function Start(): (st: Transition)
    ensures st.monitor.current == ServerStatus(true, None)
    ensures st.monitor.link.Streaming? && st.monitor.retries == []
    ensures st.effects == [OpenStream(StatusStreamPath)]
    ensures Valid(st.monitor)
  {
    Transition(Monitor(Streaming, [], InitialStatus), [OpenStream(StatusStreamPath)])
  }

  /** One event. On a live stream a status event publishes its parsed
      status, and an error publishes the disconnected status, closes the
      stream and schedules one retry after the constant delay. A fired retry
      opens a new stream. A closed stream delivers nothing, and a timer
      with no retry waiting does nothing. No event cancels a waiting
      retry. */
  function Next(m: Monitor, e: StatusEvent): (st: Transition)
    ensures m.link.Streaming? && e.StatusArrived? ==>
              && st.effects == [Publish(ServerStatus(e.payload.up, e.payload.errorMsg))]
              && st.monitor == m.(current := ServerStatus(e.payload.up, e.payload.errorMsg))
    ensures m.link.Streaming? && e.StreamError? ==>
              && st.effects == [Publish(ServerStatus(false, Some(ServerDisconnected))), ScheduleRetry(3000)]
              && st.monitor.link.Closed?
              && st.monitor.retries == m.retries + [3000]
              && st.monitor.current == ServerStatus(false, Some(ServerDisconnected))
    ensures e.TimerFired? && |m.retries| > 0 ==>
              && st.effects == [OpenStream(StatusStreamPath)]
              && st.monitor == Monitor(Streaming, m.retries[1..], m.current)
    ensures (m.link.Closed? && !e.TimerFired?) || (e.TimerFired? && |m.retries| == 0) ==>
              st == Transition(m, [])
    ensures |st.monitor.retries| >= |m.retries| - 1
    ensures Valid(m) ==> Valid(st.monitor)
  {
    match e
    case StatusArrived(payload) =>
      if m.link.Streaming? then
        var s := ParseStatus(payload);
        Transition(m.(current := s), [Publish(s)])
      else Transition(m, [])
    case StreamError =>
      if m.link.Streaming? then
        Transition(Monitor(Closed, m.retries + [RetryIntervalMs], DownStatus),
             [Publish(DownStatus), ScheduleRetry(RetryIntervalMs)])
      else Transition(m, [])
    case TimerFired =>
      if |m.retries| > 0 then
        Transition(Monitor(Streaming, m.retries[1..], m.current), [OpenStream(StatusStreamPath)])
      else Transition(m, [])
  }

  /** Events applied in order; the result collects every effect. */
  function Run(m: Monitor, events: seq<StatusEvent>): (st: Transition)
    decreases |events|
  {
    if |events| == 0 then Transition(m, [])
    else
      var first := Next(m, events[0]);
      var rest := Run(first.monitor, events[1..]);
      Transition(rest.monitor, first.effects + rest.effects)
  }

  function CountRetries(effects: seq<Effect>): nat {
    if |effects| == 0 then 0
    else (if effects[0].ScheduleRetry? then 1 else 0) + CountRetries(effects[1..])
  }

  function CountOpens(effects: seq<Effect>): nat {
    if |effects| == 0 then 0
    else (if effects[0].OpenStream? then 1 else 0) + CountOpens(effects[1..])
  }

  lemma {:induction false} CountsDistribute(a: seq<Effect>, b: seq<Effect>)
    ensures CountRetries(a + b) == CountRetries(a) + CountRetries(b)
    ensures CountOpens(a + b) == CountOpens(a) + CountOpens(b)
    decreases |a|
  {
    if |a| > 0 {
      assert (a + b)[0] == a[0];
      assert (a + b)[1..] == a[1..] + b;
      CountsDistribute(a[1..], b);
    } else {
      assert a + b == b;
    }
  }

  /** The status most recently published in `effects`, or `fallback` when
      none is. */
  function LastPublished(effects: seq<Effect>, fallback: ServerStatus): ServerStatus
    decreases |effects|
  {
    if |effects| == 0 then fallback
    else if effects[|effects| - 1].Publish? then effects[|effects| - 1].status
    else LastPublished(effects[..|effects| - 1], fallback)
  }

  lemma {:induction false} LastPublishedAppend(a: seq<Effect>, b: seq<Effect>, fallback: ServerStatus)
    ensures LastPublished(a + b, fallback) == LastPublished(b, LastPublished(a, fallback))
    decreases |b|
  {
    if |b| > 0 {
      assert (a + b)[|a + b| - 1] == b[|b| - 1];
      assert (a + b)[..|a + b| - 1] == a + b[..|b| - 1];
      LastPublishedAppend(a, b[..|b| - 1], fallback);
    } else {
      assert a + b == a;
    }
  }

  /** Every run keeps the monitor valid, and the current status is always
      the one most recently published. */
  lemma {:induction false} RunInvariant(m: Monitor, events: seq<StatusEvent>)
    requires Valid(m)
    ensures Valid(Run(m, events).monitor)
    ensures Run(m, events).monitor.current == LastPublished(Run(m, events).effects, m.current)
    decreases |events|
  {
    if |events| > 0 {
      var first := Next(m, events[0]);
      RunInvariant(first.monitor, events[1..]);
      var rest := Run(first.monitor, events[1..]);
      LastPublishedAppend(first.effects, rest.effects, m.current);
      assert first.monitor.current == LastPublished(first.effects, m.current) by {
        if |first.effects| == 2 {
          assert first.effects[..1] == [Publish(DownStatus)];
        }
      }
    }
  }

  /** Retries are never dropped: every retry a run schedules either fires
      and opens a stream during the run or is still waiting at its end. */
  lemma {:induction false} RetriesAccounted(m: Monitor, events: seq<StatusEvent>)
    ensures var st := Run(m, events);
            CountRetries(st.effects) + |m.retries| == CountOpens(st.effects) + |st.monitor.retries|
    decreases |events|
  {
    if |events| > 0 {
      var first := Next(m, events[0]);
      RetriesAccounted(first.monitor, events[1..]);
      CountsDistribute(first.effects, Run(first.monitor, events[1..]).effects);
    }
  }

  /** Every retry in `effs` waits the constant delay and comes right after
      a disconnected status is published. */
  predicate RetriesFollowDown(effs: seq<Effect>) {
    forall i :: 0 <= i < |effs| && effs[i].ScheduleRetry? ==>
      && effs[i].delayMs == 3000
      && 0 < i && effs[i - 1] == Publish(ServerStatus(false, Some(ServerDisconnected)))
  }

  /** Every retry a run schedules waits the same constant 3000 ms (no
      backoff growth), and comes right after the disconnected status is
      published. */
  lemma {:induction false} RetryConstantAfterDown(m: Monitor, events: seq<StatusEvent>)
    ensures RetriesFollowDown(Run(m, events).effects)
    decreases |events|
  {
    if |events| > 0 {
      var first := Next(m, events[0]);
      RetryConstantAfterDown(first.monitor, events[1..]);
      var rest := Run(first.monitor, events[1..]).effects;
      var effs := first.effects + rest;
      assert Run(m, events).effects == effs;
      forall i | 0 <= i < |effs| && effs[i].ScheduleRetry?
        ensures effs[i].delayMs == 3000
        ensures 0 < i && effs[i - 1] == Publish(DownStatus)
      {
        if i >= |first.effects| {
          var j := i - |first.effects|;
          assert effs[i] == rest[j];
          assert rest[j].ScheduleRetry?;
          assert effs[i - 1] == rest[j - 1];
        } else {
          assert m.link.Streaming? && events[0].StreamError?;
          assert first.effects == [Publish(DownStatus), ScheduleRetry(RetryIntervalMs)];
        }
      }
    }
  }

  /** A closed stream ignores everything but its retry timer: a run of
      status events and errors leaves the monitor as it was and emits
      nothing. */
  lemma {:induction false} ClosedIgnoresAllButTimer(m: Monitor, between: seq<StatusEvent>, tail: seq<StatusEvent>)
    requires m.link.Closed?
    requires forall i :: 0 <= i < |between| ==> !between[i].TimerFired?
    ensures Run(m, between + tail) == Run(m, tail)
    decreases |between|
  {
    if |between| > 0 {
      assert (between + tail)[0] == between[0];
      assert (between + tail)[1..] == between[1..] + tail;
      ClosedIgnoresAllButTimer(m, between[1..], tail);
    } else {
      assert between + tail == tail;
    }
  }

  /** From a live stream, an error is answered by exactly one disconnected
      status and then exactly one retry; whatever status events and errors
      follow have no effect, and the retry timer then opens exactly one new
      stream, leaving the stream live with nothing waiting and the
      disconnected status current. */
  lemma ErrorThenRetryThenReconnect(m: Monitor, between: seq<StatusEvent>)
    requires Valid(m) && m.link.Streaming?
    requires forall i :: 0 <= i < |between| ==> !between[i].TimerFired?
    ensures Run(m, [StreamError] + between + [TimerFired]) ==
            Transition(Monitor(Streaming, [], DownStatus),
                       [Publish(DownStatus), ScheduleRetry(RetryIntervalMs), OpenStream(StatusStreamPath)])
  {
    var m1 := Monitor(Closed, [RetryIntervalMs], DownStatus);
    var m4 := Monitor(Streaming, [], DownStatus);
    var events := [StreamError] + between + [TimerFired];
    assert Next(m, StreamError) == Transition(m1, [Publish(DownStatus), ScheduleRetry(RetryIntervalMs)]);
    assert events[0] == StreamError;
    assert events[1..] == between + [TimerFired];
    ClosedIgnoresAllButTimer(m1, between, [TimerFired]);
    assert Run(m4, []) == Transition(m4, []);
    assert Run(m1, [TimerFired]) == Transition(m4, [OpenStream(StatusStreamPath)]);
  }
}
