/** The capture state machine as a function of its state and of what the world
    answered during one step (capture_state_machine.cpp). A run is any sequence
    of such answers. The class CaptureStateMachine is proved to take exactly
    these steps; the theorems about runs are stated and proved here and in the
    modules that import this one. */
module CaptureSpec {
  import opened Types
  import opened Backoffs
  import opened RateDetector

  /** CaptureStats: the exported counters. `intervals` lists the values observed by
      the frame-interval histogram, in seconds. */
  datatype Stats = Stats(
    framesReceived: nat,
    bytesReceived: nat,
    captureState: nat,
    reconnects: nat,
    stalls: nat,
    lastFrameUnixtime: nat,
    intervals: seq<real>,
    errors: ErrorCounts,
    streamInfo: Option<StreamFormat>)

  /** The fields of the state machine, its statistics, and the streaming sessions it
      has been through. Each backoff is given by its failures since the last reset. */
  datatype Machine = Machine(
    config: DaemonConfig,
    state: CaptureState,
    absentFailures: nat,
    waitFailures: nat,
    nextAttemptAt: int,
    lastFrameAt: int,
    haveLastFrame: bool,
    recovering: bool,
    currentFormat: StreamFormat,
    hasStreamedBefore: bool,
    rate: Detector,
    stats: Stats,
    sessions: seq<Session>)

  /** What the world answers during one step: up to two readings of the steady clock,
      the wall clock in nanoseconds since the epoch, and one answer per kind of device
      call. Answers to calls that a step does not make are ignored. */
  datatype Answers = Answers(
    first: int,
    second: int,
    wall: nat,
    open: OpenResult,
    query: FormatAnswer,
    start: StreamStartResult,
    dequeue: DequeueAnswer)

  /** The machine after a step, the recommended wait in milliseconds, the events the
      step emitted and the device calls it made, in order. */
  datatype Outcome = Outcome(machine: Machine, wait: nat, events: seq<Event>, calls: seq<Call>)

  // ---- Building blocks --------------------------------------------------------

  function WithError(m: Machine, reason: ErrorReason): Machine {
    m.(stats := m.stats.(errors := m.stats.errors.Plus(reason)))
  }

  function ErrorCount(m: Machine, reason: ErrorReason): nat {
    m.stats.errors.Of(reason)
  }

  function Enter(m: Machine, state: CaptureState): Machine {
    m.(state := state, stats := m.stats.(captureState := state.Gauge()))
  }

  function AbsentDelay(m: Machine): nat {
    Delay(m.config.reconnectInitialBackoff, m.config.reconnectMaxBackoff, m.absentFailures)
  }

  function WaitDelay(m: Machine): nat {
    Delay(m.config.reconnectInitialBackoff, m.config.awaitingProducerMaxBackoff, m.waitFailures)
  }

  /** A failed attempt while waiting for a producer: grow the shared backoff. */
  function BackOff(m: Machine, now: int): Machine {
    m.(waitFailures := m.waitFailures + 1, nextAttemptAt := now + WaitDelay(m) * NS_PER_MS)
  }

  /** Too early to try again: what is left, truncated to milliseconds. */
  function StillWaiting(m: Machine, now: int): Outcome
    requires now < m.nextAttemptAt
  {
    Outcome(m, (m.nextAttemptAt - now) / NS_PER_MS, [], [])
  }

  /** The outcome with one call made before those it lists. */
  function After1(call: Call, o: Outcome): Outcome {
    o.(calls := [call] + o.calls)
  }

  // ---- The steps --------------------------------------------------------------

  function StepDeviceAbsent(m: Machine, a: Answers): Outcome {
    if a.first < m.nextAttemptAt then StillWaiting(m, a.first)
    else if a.open == Opened then
      Outcome(Enter(m.(absentFailures := 0, waitFailures := 0), AwaitingProducer), 0,
              [PlainEvent(DeviceOpened), PlainEvent(ProducerAwaited)], [OpenCall(a.open)])
    else
      var delay := AbsentDelay(m);
      Outcome(WithError(m, OpenFailed).(absentFailures := m.absentFailures + 1,
                                        nextAttemptAt := a.first + delay * NS_PER_MS),
              delay, [], [OpenCall(a.open)])
  }

  /** The machine after enter_configuring; it is Streaming exactly if the start succeeded. */
  function EnterConfiguring(m: Machine, start: StreamStartResult, now: int): Machine {
    if start == BufferError then
      BackOff(Enter(WithError(m, BufferFailed), AwaitingProducer), now)
    else
      var n := Enter(m, Streaming);
      n.(
        absentFailures := 0,
        waitFailures := 0,
        stats := n.stats.(streamInfo := Some(m.currentFormat)),
        haveLastFrame := false,
        rate := Detector(now, 0, false),
        sessions := m.sessions + [Session(now, [])])
  }

  /** A first start is announced as such, a later one from this path as a reconnection. */
  function FirstStartOrReconnection(m: Machine): Machine {
    if m.hasStreamedBefore then m.(stats := m.stats.(reconnects := m.stats.reconnects + 1))
    else m.(hasStreamedBefore := true)
  }

  /** A first wait once the device has been asked: the answer decides. */
  function Ask(m: Machine, a: Answers): Outcome {
    match a.query
    case NoProducer => Outcome(BackOff(m, a.first), WaitDelay(m), [], [])
    case QueryError => Outcome(BackOff(WithError(m, FormatFailed), a.first), WaitDelay(m), [], [])
    case Known(format) =>
      var n := EnterConfiguring(m.(currentFormat := format), a.start, a.second);
      var start := StartCall(m.config.bufferCount, a.start);
      if a.start == BufferError then Outcome(n, WaitDelay(m), [], [start])
      else
        Outcome(FirstStartOrReconnection(n), 0,
                [if m.hasStreamedBefore then PlainEvent(Reconnecting)
                 else Event(StreamingStarted, format, UNSET_FORMAT, None)], [start])
  }

  function StepAwaitingProducer(m: Machine, a: Answers): Outcome {
    if a.first < m.nextAttemptAt then StillWaiting(m, a.first)
    else After1(QueryCall(a.query), Ask(m, a))
  }

  const RELEASE: seq<Call> := [StopCall, CloseCall]

  function StartOver(m: Machine, now: int): Machine {
    Enter(m, DeviceAbsent).(
      recovering := false,
      absentFailures := 0,
      waitFailures := 0,
      nextAttemptAt := now,
      haveLastFrame := false)
  }

  function LoseDevice(m: Machine, now: int): Machine {
    StartOver(WithError(m, DeviceGone), now)
  }

  function CountStall(m: Machine): Machine {
    m.(stats := m.stats.(stalls := m.stats.stalls + 1))
  }

  function Recover(m: Machine, now: int): Machine {
    Enter(m, AwaitingProducer).(
      recovering := true,
      waitFailures := 0,
      nextAttemptAt := now,
      haveLastFrame := false)
  }

  /** The release of the device; the stalled state it passes through leaves no trace. */
  function BeginReleaseCycle(m: Machine, reason: ErrorReason, now: int): Machine {
    Recover(WithError(CountStall(m), reason), now)
  }

  /** What a reacquisition reports: always the cleared stall first, then the format
      change if the driver's answer differs from the last one, then the start. */
  function Reacquired(format: StreamFormat, previous: StreamFormat): seq<Event> {
    [PlainEvent(StallCleared)]
    + (if format == previous then [] else [Event(FormatChanged, format, previous, None)])
    + [Event(StreamingStarted, format, UNSET_FORMAT, None)]
  }

  /** The transient probe, once the device is open: what the query answers decides. */
  function Probe(m: Machine, a: Answers): Outcome {
    match a.query
    case NoProducer => Outcome(BackOff(m, a.first), WaitDelay(m), [], [CloseCall])
    case QueryError => Outcome(BackOff(WithError(m, FormatFailed), a.first), WaitDelay(m), [], [CloseCall])
    case Known(format) =>
      var n := EnterConfiguring(m.(currentFormat := format), a.start, a.second);
      var start := StartCall(m.config.bufferCount, a.start);
      if a.start == BufferError then Outcome(n, WaitDelay(m), [], [start, CloseCall])
      else Outcome(n.(recovering := false), 0, Reacquired(format, m.currentFormat), [start])
  }

  function StepRecovering(m: Machine, a: Answers): Outcome {
    if a.first < m.nextAttemptAt then StillWaiting(m, a.first)
    else if a.open != Opened then
      After1(OpenCall(a.open), Outcome(LoseDevice(m, a.second), 0, [PlainEvent(DeviceLost)], RELEASE))
    else
      After1(OpenCall(a.open), After1(QueryCall(a.query), Probe(m, a)))
  }

  function Seconds(elapsed: int): real {
    elapsed as real / 1_000_000_000.0
  }

  /** The sessions after one more frame in the current one. */
  function WithFrame(sessions: seq<Session>, t: int): seq<Session> {
    if sessions == [] then sessions
    else Init(sessions) + [Last(sessions).(frames := Last(sessions).frames + [t])]
  }

  function HandleFrame(m: Machine, f: FrameDescriptor, wall: nat): Machine {
    m.(stats := m.stats.(
         framesReceived := m.stats.framesReceived + 1,
         bytesReceived := m.stats.bytesReceived + f.bytesUsed,
         lastFrameUnixtime := wall / NS_PER_S,
         intervals :=
           if m.haveLastFrame then m.stats.intervals + [Seconds(f.capturedAt - m.lastFrameAt)]
           else m.stats.intervals),
       lastFrameAt := f.capturedAt,
       haveLastFrame := true,
       sessions := WithFrame(m.sessions, f.capturedAt))
  }

  function CheckArrivalRate(m: Machine, t: int): Machine {
    var fps := m.config.expectedFps;
    var judged := m.(rate := Observe(fps, m.rate, t));
    if OpensEpisode(fps, m.rate, t) then WithError(judged, Geometry) else judged
  }

  /** A payload that disagrees with the negotiated size, where the size is exact. */
  predicate Mismatched(format: StreamFormat, f: FrameDescriptor) {
    !format.compressed && f.bytesUsed != format.sizeImage
  }

  function TakeFrame(m: Machine, f: FrameDescriptor, a: Answers): Outcome {
    var seen := CheckArrivalRate(HandleFrame(m, f, a.wall), f.capturedAt);
    After1(RequeueCall(f.bufferIndex),
           if Mismatched(m.currentFormat, f)
           then Outcome(BeginReleaseCycle(seen, Geometry, a.second), 0, [PlainEvent(StallDetected)], RELEASE)
           else Outcome(seen, 0, [], []))
  }

  function CheckSilence(m: Machine, a: Answers): Outcome {
    if m.haveLastFrame && a.first - m.lastFrameAt >= m.config.stallThreshold
    then Outcome(BeginReleaseCycle(m, TimedOut, a.second), 0, [PlainEvent(StallDetected)], RELEASE)
    else Outcome(m, 0, [], [])
  }

  function AfterPoll(m: Machine, a: Answers): Outcome {
    match a.dequeue
    case Frame(f) => TakeFrame(m, f, a)
    case Timeout => CheckSilence(m, a)
    case DequeueError => Outcome(WithError(m, DequeueFailed), 0, [], [])
    case Lost => Outcome(LoseDevice(m, a.second), 0, [PlainEvent(DeviceLost)], RELEASE)
  }

  function StepStreaming(m: Machine, a: Answers): Outcome {
    After1(DequeueCall(a.dequeue), AfterPoll(m, a))
  }

  function Step(m: Machine, a: Answers): Outcome {
    match m.state
    case DeviceAbsent => StepDeviceAbsent(m, a)
    case AwaitingProducer => if m.recovering then StepRecovering(m, a) else StepAwaitingProducer(m, a)
    case Configuring => Outcome(m, 0, [], [])
    case Stalled => Outcome(m, 0, [], [])
    case Streaming => StepStreaming(m, a)
  }

  // ---- Runs -------------------------------------------------------------------

  const NO_ERRORS := ErrorCounts(0, 0, 0, 0, 0, 0, 0)

  function Start(config: DaemonConfig, now: int): Machine {
    Machine(config, DeviceAbsent, 0, 0, now, 0, false, false, UNSET_FORMAT, false, Detector(0, 0, false),
            Stats(0, 0, DeviceAbsent.Gauge(), 0, 0, 0, [], NO_ERRORS, None), [])
  }

  /** The machine together with everything it has emitted and called so far. */
  datatype History = History(machine: Machine, events: seq<Event>, calls: seq<Call>)

  function Advance(h: History, a: Answers): History {
    var o := Step(h.machine, a);
    History(o.machine, h.events + o.events, h.calls + o.calls)
  }

  function Begin(config: DaemonConfig, now: int): History {
    History(Start(config, now), [], [])
  }

  function Run(h: History, answers: seq<Answers>): History
    decreases |answers|
  {
    if answers == [] then h else Run(Advance(h, answers[0]), answers[1..])
  }

  lemma {:induction false} StepKeepsConfig(m: Machine, a: Answers)
    ensures Step(m, a).machine.config == m.config
  {
    match m.state
    case AwaitingProducer =>
      if m.recovering {
        assert StepRecovering(m, a).machine.config == m.config;
      } else {
        assert StepAwaitingProducer(m, a).machine.config == m.config;
      }
    case _ =>
  }

  lemma {:induction false} ConfigStays(h: History, answers: seq<Answers>)
    ensures Run(h, answers).machine.config == h.machine.config
    decreases |answers|
  {
    if answers != [] {
      StepKeepsConfig(h.machine, answers[0]);
      ConfigStays(Advance(h, answers[0]), answers[1..]);
    }
  }

  // ---- Runs under a clock -----------------------------------------------------

  /** The answers can come from one step under a clock that read `now` before and never
      runs backwards: a frame is captured during the step. */
  predicate InOrder(now: int, a: Answers) {
    && now <= a.first <= a.second
    && (a.dequeue.Frame? ==> now <= a.dequeue.frame.capturedAt <= a.second)
  }

  /** What the clock read last. */
  function ClockAfter(now: int, answers: seq<Answers>): int {
    if answers == [] then now else Last(answers).second
  }

  /** The clock, at `now` before the run, never runs backwards during it. */
  ghost predicate ClockRuns(now: int, answers: seq<Answers>) {
    forall i {:trigger answers[i]} :: 0 <= i < |answers| ==> InOrder(if i == 0 then now else answers[i - 1].second, answers[i])
  }

  lemma {:induction false} ClockRunsInParts(now: int, before: seq<Answers>, after: seq<Answers>)
    requires ClockRuns(now, before + after)
    ensures ClockRuns(now, before) && ClockRuns(ClockAfter(now, before), after)
  {
    var all := before + after;
    assert forall i {:trigger before[i]} :: 0 <= i < |before| ==> all[i] == before[i];
    assert forall i {:trigger after[i]} :: 0 <= i < |after| ==> all[|before| + i] == after[i];
  }

  lemma {:induction false} ClockRunsOn(now: int, before: seq<Answers>, after: seq<Answers>)
    requires ClockRuns(now, before) && ClockRuns(ClockAfter(now, before), after)
    ensures ClockRuns(now, before + after)
  {
    var all := before + after;
    forall i {:trigger all[i]} | 0 <= i < |all|
      ensures InOrder(if i == 0 then now else all[i - 1].second, all[i])
    {
      if i < |before| {
        assert all[i] == before[i];
      } else {
        assert all[i] == after[i - |before|];
      }
    }
  }

  lemma {:induction false} ClockRunsInTwo(now: int, before: seq<Answers>, after: seq<Answers>)
    ensures ClockRuns(now, before + after) <==> ClockRuns(now, before) && ClockRuns(ClockAfter(now, before), after)
    ensures ClockAfter(now, before + after) == ClockAfter(ClockAfter(now, before), after)
  {
    if ClockRuns(now, before + after) {
      ClockRunsInParts(now, before, after);
    } else if ClockRuns(now, before) && ClockRuns(ClockAfter(now, before), after) {
      ClockRunsOn(now, before, after);
    }
  }

  lemma {:induction false} RunInTwo(h: History, before: seq<Answers>, after: seq<Answers>)
    ensures Run(h, before + after) == Run(Run(h, before), after)
    decreases |before|
  {
    if before == [] {
      assert before + after == after;
    } else {
      assert (before + after)[1..] == before[1..] + after;
      RunInTwo(Advance(h, before[0]), before[1..], after);
    }
  }

  // ---- Runs of a caller that sleeps out the waits -------------------------------

  /** What the clock reads at the earliest when the wait of a step has been slept out. */
  function Wakes(m: Machine, a: Answers): int {
    a.second + Step(m, a).wait * NS_PER_MS
  }

  /** The clock, at `now` before the run, never runs backwards, and no step begins before
      the wait that the one before recommended is over. */
  ghost predicate Paced(h: History, now: int, answers: seq<Answers>)
    decreases |answers|
  {
    answers != [] ==>
      InOrder(now, answers[0]) && Paced(Advance(h, answers[0]), Wakes(h.machine, answers[0]), answers[1..])
  }

  function WakesAfter(h: History, now: int, answers: seq<Answers>): int
    decreases |answers|
  {
    if answers == [] then now else WakesAfter(Advance(h, answers[0]), Wakes(h.machine, answers[0]), answers[1..])
  }

  lemma {:induction false} PacedInTwo(h: History, now: int, before: seq<Answers>, after: seq<Answers>)
    ensures Paced(h, now, before + after)
       <==> Paced(h, now, before) && Paced(Run(h, before), WakesAfter(h, now, before), after)
    ensures WakesAfter(h, now, before + after) == WakesAfter(Run(h, before), WakesAfter(h, now, before), after)
    decreases |before|
  {
    if before == [] {
      assert before + after == after;
    } else {
      assert (before + after)[1..] == before[1..] + after;
      PacedInTwo(Advance(h, before[0]), Wakes(h.machine, before[0]), before[1..], after);
    }
  }

  lemma {:induction false} PacedOnce(h: History, now: int, a: Answers)
    ensures Paced(h, now, [a]) <==> InOrder(now, a)
    ensures WakesAfter(h, now, [a]) == Wakes(h.machine, a)
  {
    assert [a][1..] == [];
    var next, wakes := Advance(h, a), Wakes(h.machine, a);
    assert Paced(next, wakes, []) && WakesAfter(next, wakes, []) == wakes;
  }

  lemma {:induction false} StartsLater(now: int, later: int, answers: seq<Answers>)
    requires ClockRuns(later, answers) && now <= later
    ensures ClockRuns(now, answers)
  {
    if answers != [] {
      assert InOrder(later, answers[0]);
    }
  }

  lemma {:induction false} PacedKeepsTime(h: History, now: int, answers: seq<Answers>)
    requires Paced(h, now, answers)
    ensures ClockRuns(now, answers)
    decreases |answers|
  {
    if answers != [] {
      var a, later := answers[0], answers[1..];
      PacedKeepsTime(Advance(h, a), Wakes(h.machine, a), later);
      StartsLater(a.second, Wakes(h.machine, a), later);
      assert ClockRuns(now, [a]);
      ClockRunsInTwo(now, [a], later);
      assert answers == [a] + later;
    }
  }
}
