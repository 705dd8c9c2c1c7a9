/** The capture state machine as the daemon runs it: an object that updates its
    fields, calls a V4L2 device over an arbitrary kernel, counts and emits. Each
    method is proved to take the step that CaptureSpec describes, for the answers it
    got, and to keep to the device's call protocol. */
module CaptureMachine {
  import opened Types
  import opened Backoffs
  import opened RateDetector
  import opened CaptureSpec
  import opened EventLanguage
  import opened DeviceProtocol
  import opened CaptureStatistics
  import opened Clocks
  import opened V4l2

  class CaptureStateMachine {
    const device: V4L2CaptureDevice
    const clock: Clock
    const sink: EventSink
    const stats: CaptureStats
    const config: DaemonConfig
    const deviceAbsentBackoff: Backoff
    const awaitingProducerBackoff: Backoff

    var state: CaptureState
    var nextAttemptAt: int
    var lastFrameAt: int
    var haveLastFrame: bool
    var recovering: bool
    var currentFormat: StreamFormat
    var hasStreamedBefore: bool
    var rateWindowStart: int
    var rateWindowFrameCount: nat
    var rateAnomalyActive: bool

    ghost var sessions: seq<Session>

    /** The objects the machine is built from, and that they fit together. */
    ghost predicate Wired()
      reads this, stats, stats.frameIntervalSeconds, deviceAbsentBackoff, awaitingProducerBackoff
    {
      && device.clock == clock
      && stats.Valid()
      && deviceAbsentBackoff != awaitingProducerBackoff
      && deviceAbsentBackoff.Valid() && awaitingProducerBackoff.Valid()
      && deviceAbsentBackoff.initial == config.reconnectInitialBackoff
      && deviceAbsentBackoff.max == config.reconnectMaxBackoff
      && awaitingProducerBackoff.initial == config.reconnectInitialBackoff
      && awaitingProducerBackoff.max == config.awaitingProducerMaxBackoff
    }

    /** The machine as a value. */
    ghost function View(): Machine
      reads this, stats, stats.frameIntervalSeconds, deviceAbsentBackoff, awaitingProducerBackoff
    {
      Machine(config, state, deviceAbsentBackoff.failures, awaitingProducerBackoff.failures,
              nextAttemptAt, lastFrameAt, haveLastFrame, recovering, currentFormat, hasStreamedBefore,
              Detector(rateWindowStart, rateWindowFrameCount, rateAnomalyActive), stats.View(), sessions)
    }

    /** Between steps: the device is in the position that the state says. */
    ghost predicate Valid()
      reads this, device, device.kernel, stats, stats.frameIntervalSeconds,
            deviceAbsentBackoff, awaitingProducerBackoff
    {
      Wired() && device.Valid() && Consistent(View()) && device.use == Holds(View())
    }

    constructor (device: V4L2CaptureDevice, clock: Clock, sink: EventSink, stats: CaptureStats, config: DaemonConfig)
      requires device.Valid() && device.use == Closed && device.clock == clock
      requires stats.Valid() && stats.View() == Stats(0, 0, DeviceAbsent.Gauge(), 0, 0, 0, [], NO_ERRORS, None)
      modifies clock`now, stats`captureState
      ensures Valid() && View() == Start(config, clock.now)
      ensures this.device == device && this.clock == clock && this.sink == sink && this.stats == stats
      ensures fresh(deviceAbsentBackoff) && fresh(awaitingProducerBackoff)
    {
      this.device, this.clock, this.sink, this.stats, this.config := device, clock, sink, stats, config;
      deviceAbsentBackoff := new Backoff(config.reconnectInitialBackoff, config.reconnectMaxBackoff);
      awaitingProducerBackoff := new Backoff(config.reconnectInitialBackoff, config.awaitingProducerMaxBackoff);
      state := DeviceAbsent;
      var t := clock.SteadyNow();
      nextAttemptAt := t;
      lastFrameAt, haveLastFrame, recovering := 0, false, false;
      currentFormat, hasStreamedBefore := UNSET_FORMAT, false;
      rateWindowStart, rateWindowFrameCount, rateAnomalyActive := 0, 0, false;
      sessions := [];
      new;
      this.stats.captureState := state.Gauge();
    }

    method ResetBackoffs()
      requires Wired()
      modifies deviceAbsentBackoff, awaitingProducerBackoff
      ensures Wired() && View() == old(View()).(absentFailures := 0, waitFailures := 0)
    {
      deviceAbsentBackoff.Reset();
      awaitingProducerBackoff.Reset();
    }

    method EnterState(s: CaptureState)
      requires Wired()
      modifies this`state, stats`captureState
      ensures Wired() && View() == Enter(old(View()), s)
    {
      state := s;
      stats.captureState := state.Gauge();
    }

    method BackOffFrom(now: int) returns (wait: nat)
      requires Wired()
      modifies this`nextAttemptAt, awaitingProducerBackoff
      ensures Wired() && View() == BackOff(old(View()), now) && wait == WaitDelay(old(View()))
    {
      wait := awaitingProducerBackoff.Next();
      nextAttemptAt := now + wait * NS_PER_MS;
    }

    method RecordFailure(reason: ErrorReason)
      requires Wired()
      modifies stats`errors
      ensures Wired() && View() == WithError(old(View()), reason)
    {
      stats.RecordError(reason);
    }

    /** Stop streaming, unmap and close, whatever is held. */
    method ReleaseDevice()
      requires device.Valid() && device.use != Misused && !device.use.Holding?
      modifies device, device.kernel
      ensures device.Valid() && device.use == Closed && device.calls == old(device.calls) + RELEASE
      ensures device.kernel.fds == {} && device.kernel.live == {} && old(device.kernel.log) <= device.kernel.log
    {
      device.StopStreaming();
      device.Close();
      assert old(device.calls) + [StopCall] + [CloseCall] == old(device.calls) + RELEASE;
    }

    method LoseDevice() returns (ghost now: int)
      requires Wired() && device.Valid() && device.use != Misused && !device.use.Holding?
      modifies this, device, device.kernel, clock`now, sink, stats, deviceAbsentBackoff, awaitingProducerBackoff
      ensures old(device.kernel.log) <= device.kernel.log
      ensures Wired() && device.Valid() && View() == CaptureSpec.LoseDevice(old(View()), now) && device.use == Closed
      ensures device.calls == old(device.calls) + RELEASE && sink.log == old(sink.log) + [PlainEvent(DeviceLost)]
      ensures old(clock.now) <= now == clock.now
    {
      RecordFailure(DeviceGone);
      ReleaseDevice();
      sink.Emit(PlainEvent(DeviceLost));
      now := AwaitDevice();
    }

    method AwaitDevice() returns (ghost now: int)
      requires Wired()
      modifies this, clock`now, stats`captureState, deviceAbsentBackoff, awaitingProducerBackoff
      ensures Wired() && View() == StartOver(old(View()), now)
      ensures old(clock.now) <= now == clock.now
    {
      EnterState(DeviceAbsent);
      recovering := false;
      ResetBackoffs();
      nextAttemptAt := clock.SteadyNow();
      now := nextAttemptAt;
      haveLastFrame := false;
    }

    /** The momentary stalled state, entered and left within one release. */
    method EnterStalled(reason: ErrorReason)
      requires Wired()
      modifies this`state, sink, stats
      ensures Wired() && sink.log == old(sink.log) + [PlainEvent(StallDetected)]
      ensures View() == Enter(WithError(CountStall(old(View())), reason), Stalled)
    {
      stats.stalls := stats.stalls + 1;
      RecordFailure(reason);
      EnterState(Stalled);
      sink.Emit(PlainEvent(StallDetected));
    }

    method AwaitReacquisition() returns (ghost now: int)
      requires Wired()
      modifies this, clock`now, stats`captureState, awaitingProducerBackoff
      ensures Wired() && View() == Recover(old(View()), now)
      ensures old(clock.now) <= now == clock.now
    {
      EnterState(AwaitingProducer);
      recovering := true;
      awaitingProducerBackoff.Reset();
      nextAttemptAt := clock.SteadyNow();
      now := nextAttemptAt;
      haveLastFrame := false;
    }

    method BeginReleaseCycle(reason: ErrorReason) returns (ghost now: int)
      requires Wired() && device.Valid() && device.use == Running
      modifies this, device, device.kernel, clock`now, sink, stats, awaitingProducerBackoff
      ensures old(device.kernel.log) <= device.kernel.log
      ensures Wired() && device.Valid() && View() == CaptureSpec.BeginReleaseCycle(old(View()), reason, now) && device.use == Closed
      ensures device.calls == old(device.calls) + RELEASE && sink.log == old(sink.log) + [PlainEvent(StallDetected)]
      ensures old(clock.now) <= now == clock.now
    {
      EnterStalled(reason);
      ReleaseDevice();
      now := AwaitReacquisition();
    }

    method GiveUpConfiguring() returns (wait: nat, ghost now: int)
      requires Wired()
      modifies this`state, this`nextAttemptAt, clock`now, stats`errors, stats`captureState, awaitingProducerBackoff
      ensures Wired() && View() == CaptureSpec.EnterConfiguring(old(View()), BufferError, now)
      ensures wait == WaitDelay(old(View())) && old(clock.now) <= now == clock.now
    {
      RecordFailure(BufferFailed);
      EnterState(AwaitingProducer);
      var t := clock.SteadyNow();
      now := t;
      wait := BackOffFrom(t);
    }

    method OpenSession() returns (ghost now: int)
      requires Wired()
      modifies this, clock`now
      ensures Wired() && View() == old(View()).(
        haveLastFrame := false, rate := Detector(now, 0, false), sessions := old(View()).sessions + [Session(now, [])])
      ensures old(clock.now) <= now == clock.now
    {
      haveLastFrame := false;
      rateWindowStart := clock.SteadyNow();
      now := rateWindowStart;
      rateWindowFrameCount := 0;
      rateAnomalyActive := false;
      sessions := sessions + [Session(rateWindowStart, [])];
    }

    method BeginSession() returns (ghost now: int)
      requires Wired()
      modifies this, clock`now, stats, deviceAbsentBackoff, awaitingProducerBackoff
      ensures Wired() && View() == CaptureSpec.EnterConfiguring(old(View()), Started, now)
      ensures old(clock.now) <= now == clock.now
    {
      ResetBackoffs();
      stats.SetStreamInfo(currentFormat);
      now := OpenSession();
      EnterState(Streaming);
    }

    method LearnFormat(format: StreamFormat)
      requires Wired()
      modifies this`currentFormat
      ensures Wired() && View() == old(View()).(currentFormat := format)
    {
      currentFormat := format;
    }

    method EnterConfiguring() returns (wait: nat, ghost started: StreamStartResult, ghost now: int)
      requires Wired() && device.Valid() && device.use == Ready(true)
      modifies this, device, device.kernel, clock`now, stats, deviceAbsentBackoff, awaitingProducerBackoff
      ensures Wired() && device.Valid() && View() == CaptureSpec.EnterConfiguring(old(View()), started, now)
      ensures wait == if started == BufferError then WaitDelay(old(View())) else 0
      ensures device.calls == old(device.calls) + [StartCall(config.bufferCount, started)]
      ensures device.kernel.requested == old(device.kernel.requested) + [config.bufferCount]
      ensures device.use == if started == Started then Running else Ready(false)
      ensures old(clock.now) <= now == clock.now
    {
      EnterState(Configuring);
      var result, _ := device.StartStreaming(config.bufferCount);
      started := result;
      wait, now := LeaveConfiguring(result, old(View()));
    }

    /** `m` is the machine as it was when it entered the momentary configuring state. */
    method LeaveConfiguring(result: StreamStartResult, ghost m: Machine) returns (wait: nat, ghost now: int)
      requires Wired() && View() == Enter(m, Configuring)
      modifies this, clock`now, stats, deviceAbsentBackoff, awaitingProducerBackoff
      ensures Wired() && View() == CaptureSpec.EnterConfiguring(m, result, now)
      ensures wait == if result == BufferError then WaitDelay(m) else 0
      ensures old(clock.now) <= now == clock.now
    {
      if result == BufferError {
        wait, now := GiveUpConfiguring();
      } else {
        now := BeginSession();
        wait := 0;
      }
    }

    method CountFrame(frame: FrameDescriptor) returns (ghost wall: nat)
      requires Wired()
      modifies stats, clock`wallReadings
      ensures Wired() && clock.wallReadings == old(clock.wallReadings) + [wall]
      ensures stats.View() == old(stats.View()).(
        framesReceived := old(stats.framesReceived) + 1,
        bytesReceived := old(stats.bytesReceived) + frame.bytesUsed,
        lastFrameUnixtime := wall / NS_PER_S)
    {
      stats.framesReceived := stats.framesReceived + 1;
      stats.bytesReceived := stats.bytesReceived + frame.bytesUsed;
      var t := clock.WallNow();
      wall := t;
      stats.lastFrameUnixtime := t / NS_PER_S;
    }

    method RecordInterval(capturedAt: int)
      requires Wired()
      modifies stats.frameIntervalSeconds
      ensures Wired()
      ensures stats.View() == old(stats.View()).(
        intervals := old(stats.View()).intervals + if haveLastFrame then [Seconds(capturedAt - lastFrameAt)] else [])
    {
      if haveLastFrame {
        stats.frameIntervalSeconds.Observe(Seconds(capturedAt - lastFrameAt));
      }
    }

    method RecordFrame(frame: FrameDescriptor) returns (ghost wall: nat)
      requires Wired()
      modifies stats, stats.frameIntervalSeconds, clock`wallReadings
      ensures Wired() && clock.wallReadings == old(clock.wallReadings) + [wall]
      ensures stats.View() == CaptureSpec.HandleFrame(old(View()), frame, wall).stats
    {
      wall := CountFrame(frame);
      RecordInterval(frame.capturedAt);
    }

    method HandleFrame(frame: FrameDescriptor) returns (ghost wall: nat)
      requires Wired() && device.Valid() && device.use == Holding(frame.bufferIndex)
      modifies this, device, device.kernel, stats, stats.frameIntervalSeconds, clock`wallReadings
      ensures old(device.kernel.log) <= device.kernel.log
      ensures clock.wallReadings == old(clock.wallReadings) + [wall]
      ensures Wired() && device.Valid() && View() == CaptureSpec.HandleFrame(old(View()), frame, wall) && device.use == Running
      ensures device.calls == old(device.calls) + [RequeueCall(frame.bufferIndex)]
    {
      device.RequeueFrame(frame.bufferIndex);
      wall := RecordFrame(frame);
      lastFrameAt := frame.capturedAt;
      haveLastFrame := true;
      sessions := WithFrame(sessions, frame.capturedAt);
    }

    method CheckArrivalRate(now: int)
      requires Wired()
      modifies this`rateWindowStart, this`rateWindowFrameCount, this`rateAnomalyActive, stats`errors
      ensures Wired() && View() == CaptureSpec.CheckArrivalRate(old(View()), now)
    {
      rateWindowFrameCount := rateWindowFrameCount + 1;
      var elapsed := now - rateWindowStart;
      if elapsed < WINDOW {
        return;
      }
      if TooFast(config.expectedFps, rateWindowFrameCount, elapsed) {
        if !rateAnomalyActive {
          stats.RecordError(Geometry);
          rateAnomalyActive := true;
        }
      } else {
        rateAnomalyActive := false;
      }
      rateWindowStart := now;
      rateWindowFrameCount := 0;
    }

    /** What every step promises: the outcome `o`, for answers drawn from a clock that
        never runs backwards and, for a frame, from one reading of the wall clock. */
    twostate predicate Took(o: Outcome, a: Answers, wait: nat)
      reads this, device, device.kernel, clock, sink, stats, stats.frameIntervalSeconds,
            deviceAbsentBackoff, awaitingProducerBackoff
    {
      && Wired() && device.Valid()
      && View() == o.machine
      && wait == o.wait
      && sink.log == old(sink.log) + o.events
      && device.calls == old(device.calls) + o.calls
      && device.use == Holds(o.machine)
      && InOrder(old(clock.now), a) && a.second <= clock.now
      && clock.wallReadings == old(clock.wallReadings) + if a.dequeue.Frame? then [a.wall] else []
    }

    method StepDeviceAbsent() returns (wait: nat, ghost a: Answers)
      requires Wired() && device.Valid() && state == DeviceAbsent && !recovering && device.use == Closed
      modifies this, device, device.kernel, clock`now, sink, stats, deviceAbsentBackoff, awaitingProducerBackoff
      ensures Took(CaptureSpec.StepDeviceAbsent(old(View()), a), a, wait)
    {
      var now := clock.SteadyNow();
      a := Answers(now, now, 0, OpenResult.Absent, NoProducer, BufferError, Timeout);
      if now < nextAttemptAt {
        wait := (nextAttemptAt - now) / NS_PER_MS;
        return;
      }
      var result := device.Open();
      a := a.(open := result);
      if result == Opened {
        AwaitFirstProducer();
        wait := 0;
      } else {
        wait := FailOpen(now);
      }
    }

    method AwaitFirstProducer()
      requires Wired()
      modifies this`state, sink, stats`captureState, deviceAbsentBackoff, awaitingProducerBackoff
      ensures Wired()
      ensures View() == Enter(old(View()).(absentFailures := 0, waitFailures := 0), AwaitingProducer)
      ensures sink.log == old(sink.log) + [PlainEvent(DeviceOpened), PlainEvent(ProducerAwaited)]
    {
      ResetBackoffs();
      EnterState(AwaitingProducer);
      sink.Emit(PlainEvent(DeviceOpened));
      sink.Emit(PlainEvent(ProducerAwaited));
    }

    method FailOpen(now: int) returns (wait: nat)
      requires Wired()
      modifies this`nextAttemptAt, stats`errors, deviceAbsentBackoff
      ensures Wired() && wait == AbsentDelay(old(View()))
      ensures View() == WithError(old(View()), OpenFailed).(
        absentFailures := old(View()).absentFailures + 1, nextAttemptAt := now + wait * NS_PER_MS)
    {
      RecordFailure(OpenFailed);
      wait := deviceAbsentBackoff.Next();
      nextAttemptAt := now + wait * NS_PER_MS;
    }

    method StepAwaitingProducer() returns (wait: nat, ghost a: Answers)
      requires Wired() && device.Valid() && state == AwaitingProducer && !recovering && device.use == Ready(false)
      modifies this, device, device.kernel, clock`now, sink, stats, deviceAbsentBackoff, awaitingProducerBackoff
      ensures Took(CaptureSpec.StepAwaitingProducer(old(View()), a), a, wait)
    {
      var now := clock.SteadyNow();
      a := Answers(now, now, 0, OpenResult.Absent, NoProducer, BufferError, Timeout);
      if now < nextAttemptAt {
        wait := (nextAttemptAt - now) / NS_PER_MS;
        return;
      }
      wait, a := TryProducer(now);
    }

    /** Ask for a format and, if there is one, configure. */
    method TryProducer(now: int) returns (wait: nat, ghost a: Answers)
      requires Wired() && device.Valid() && state == AwaitingProducer && !recovering && device.use == Ready(false)
      requires nextAttemptAt <= now <= clock.now
      modifies this, device, device.kernel, clock`now, sink, stats, deviceAbsentBackoff, awaitingProducerBackoff
      ensures a.first == now && now <= a.second <= clock.now && a.dequeue == Timeout
      ensures var o := CaptureSpec.StepAwaitingProducer(old(View()), a);
        && Wired() && device.Valid() && View() == o.machine && wait == o.wait
        && sink.log == old(sink.log) + o.events && device.calls == old(device.calls) + o.calls
        && device.use == Holds(o.machine)
    {
      var result, _ := device.QueryFormat();
      ghost var started, second;
      wait, started, second := AfterAsking(result, now);
      a := Answers(now, second, 0, OpenResult.Absent, result, started, Timeout);
      Joined(old(device.calls), [QueryCall(result)], CaptureSpec.Ask(old(View()), a).calls);
    }

    /** The rest of an attempt, after the query has been answered. */
    method AfterAsking(result: FormatAnswer, now: int)
        returns (wait: nat, ghost started: StreamStartResult, ghost second: int)
      requires Wired() && device.Valid() && state == AwaitingProducer && device.use == Ready(result.Known?)
      requires now <= clock.now
      modifies this, device, device.kernel, clock`now, sink, stats, deviceAbsentBackoff, awaitingProducerBackoff
      ensures Wired() && device.Valid() && now <= second <= clock.now
      ensures forall a: Answers :: a.first == now && a.second == second && a.query == result && a.start == started ==>
        var o := CaptureSpec.Ask(old(View()), a);
        && View() == o.machine && wait == o.wait
        && sink.log == old(sink.log) + o.events && device.calls == old(device.calls) + o.calls
      ensures device.use == if result.Known? && started == Started then Running else Ready(false)
    {
      if result.Known? {
        wait, started, second := FirstStart(result.format);
      } else {
        wait := KeepWaiting(result, now);
        started, second := BufferError, now;
      }
    }

    /** No format was learnt: count an error if it was one, and back off. */
    method KeepWaiting(result: FormatAnswer, now: int) returns (wait: nat)
      requires Wired() && !result.Known?
      modifies this`nextAttemptAt, stats`errors, awaitingProducerBackoff
      ensures Wired() && wait == WaitDelay(old(View()))
      ensures View() == BackOff(if result == QueryError then WithError(old(View()), FormatFailed) else old(View()), now)
    {
      if result == QueryError {
        RecordFailure(FormatFailed);
      }
      wait := BackOffFrom(now);
    }

    /** Configure with the format just learnt and announce a first start or a reconnection. */
    method FirstStart(format: StreamFormat) returns (wait: nat, ghost started: StreamStartResult, ghost now: int)
      requires Wired() && device.Valid() && device.use == Ready(true) && state == AwaitingProducer
      modifies this, device, device.kernel, clock`now, sink, stats, deviceAbsentBackoff, awaitingProducerBackoff
      ensures Wired() && device.Valid() && old(clock.now) <= now == clock.now
      ensures device.calls == old(device.calls) + [StartCall(config.bufferCount, started)]
      ensures device.use == if started == Started then Running else Ready(false)
      ensures wait == if started == BufferError then WaitDelay(old(View())) else 0
      ensures var n := CaptureSpec.EnterConfiguring(old(View()).(currentFormat := format), started, now);
        View() == if started == BufferError then n else FirstStartOrReconnection(n)
      ensures sink.log == old(sink.log) + if started == BufferError then []
        else [if old(hasStreamedBefore) then PlainEvent(Reconnecting) else Event(StreamingStarted, format, UNSET_FORMAT, None)]
    {
      LearnFormat(format);
      wait, started, now := EnterConfiguring();
      if state == Streaming {
        Announce();
      }
    }

    method Announce()
      requires Wired()
      modifies this`hasStreamedBefore, sink, stats`reconnects
      ensures Wired() && View() == FirstStartOrReconnection(old(View()))
      ensures sink.log == old(sink.log)
        + [if old(hasStreamedBefore) then PlainEvent(Reconnecting) else Event(StreamingStarted, currentFormat, UNSET_FORMAT, None)]
    {
      if hasStreamedBefore {
        stats.reconnects := stats.reconnects + 1;
        sink.Emit(PlainEvent(Reconnecting));
      } else {
        hasStreamedBefore := true;
        sink.Emit(Event(StreamingStarted, currentFormat, UNSET_FORMAT, None));
      }
    }

    method StepRecovering() returns (wait: nat, ghost a: Answers)
      requires Wired() && device.Valid() && state == AwaitingProducer && recovering && device.use == Closed
      modifies this, device, device.kernel, clock`now, sink, stats, deviceAbsentBackoff, awaitingProducerBackoff
      ensures Took(CaptureSpec.StepRecovering(old(View()), a), a, wait)
    {
      var now := clock.SteadyNow();
      a := Answers(now, now, 0, OpenResult.Absent, NoProducer, BufferError, Timeout);
      if now < nextAttemptAt {
        wait := (nextAttemptAt - now) / NS_PER_MS;
        return;
      }
      wait, a := TryRecovery(now);
    }

    /** A recovery attempt: open, query, and configure or close. */
    method TryRecovery(now: int) returns (wait: nat, ghost a: Answers)
      requires Wired() && device.Valid() && state == AwaitingProducer && recovering && device.use == Closed
      requires nextAttemptAt <= now <= clock.now
      modifies this, device, device.kernel, clock`now, sink, stats, deviceAbsentBackoff, awaitingProducerBackoff
      ensures a.first == now && now <= a.second == clock.now && a.dequeue == Timeout
      ensures var o := CaptureSpec.StepRecovering(old(View()), a);
        && Wired() && device.Valid() && View() == o.machine && wait == o.wait
        && sink.log == old(sink.log) + o.events && device.calls == old(device.calls) + o.calls
        && device.use == Holds(o.machine)
    {
      var opening := device.Open();
      if opening != Opened {
        ghost var second := LoseDevice();
        a := Answers(now, second, 0, opening, NoProducer, BufferError, Timeout);
        wait := 0;
        Joined(old(device.calls), [OpenCall(opening)], RELEASE);
        return;
      }
      wait, a := QueryAndProbe(now);
      Joined(old(device.calls), [OpenCall(opening)], After1(QueryCall(a.query), CaptureSpec.Probe(old(View()), a)).calls);
    }

    /** A recovery attempt once the device is open. */
    method QueryAndProbe(now: int) returns (wait: nat, ghost a: Answers)
      requires Wired() && device.Valid() && state == AwaitingProducer && device.use == Ready(false) && now <= clock.now
      modifies this, device, device.kernel, clock`now, sink, stats, deviceAbsentBackoff, awaitingProducerBackoff
      ensures a.first == now && a.open == Opened && old(clock.now) <= a.second == clock.now && a.dequeue == Timeout
      ensures var o := After1(QueryCall(a.query), CaptureSpec.Probe(old(View()), a));
        && Wired() && device.Valid() && View() == o.machine && wait == o.wait
        && sink.log == old(sink.log) + o.events && device.calls == old(device.calls) + o.calls
      ensures device.use == if a.query.Known? && a.start == Started then Running else Closed
    {
      var result, _ := device.QueryFormat();
      ghost var started, second;
      wait, started, second := Probe(result, now);
      a := Answers(now, second, 0, Opened, result, started, Timeout);
      Joined(old(device.calls), [QueryCall(result)], CaptureSpec.Probe(old(View()), a).calls);
    }

    /** The rest of a recovery attempt, after the query has been answered. */
    method Probe(result: FormatAnswer, now: int)
        returns (wait: nat, ghost started: StreamStartResult, ghost second: int)
      requires Wired() && device.Valid() && state == AwaitingProducer && device.use == Ready(result.Known?)
      modifies this, device, device.kernel, clock`now, sink, stats, deviceAbsentBackoff, awaitingProducerBackoff
      ensures Wired() && device.Valid() && old(clock.now) <= second == clock.now
      ensures forall a: Answers :: a.first == now && a.second == second && a.query == result && a.start == started ==>
        var o := CaptureSpec.Probe(old(View()), a);
        && View() == o.machine && wait == o.wait
        && sink.log == old(sink.log) + o.events && device.calls == old(device.calls) + o.calls
      ensures device.use == if result.Known? && started == Started then Running else Closed
    {
      if result.Known? {
        wait, started, second := Reacquire(result.format);
      } else {
        wait := GiveUpProbe(result, now);
        started, second := BufferError, clock.now;
      }
    }

    method GiveUpProbe(result: FormatAnswer, now: int) returns (wait: nat)
      requires Wired() && device.Valid() && device.use == Ready(false) && !result.Known?
      modifies this`nextAttemptAt, device, device.kernel, stats`errors, awaitingProducerBackoff
      ensures Wired() && device.Valid() && device.use == Closed && device.calls == old(device.calls) + [CloseCall]
      ensures View() == BackOff(if result == QueryError then WithError(old(View()), FormatFailed) else old(View()), now)
      ensures wait == WaitDelay(old(View()))
    {
      device.Close();
      wait := KeepWaiting(result, now);
    }

    /** Configure with the format just learnt and report how the recovery ended. */
    method Reacquire(format: StreamFormat) returns (wait: nat, ghost started: StreamStartResult, ghost now: int)
      requires Wired() && device.Valid() && device.use == Ready(true) && state == AwaitingProducer
      modifies this, device, device.kernel, clock`now, sink, stats, deviceAbsentBackoff, awaitingProducerBackoff
      ensures Wired() && device.Valid() && old(clock.now) <= now == clock.now
      ensures device.calls == old(device.calls)
        + if started == Started then [StartCall(config.bufferCount, started)] else [StartCall(config.bufferCount, started), CloseCall]
      ensures device.use == if started == Started then Running else Closed
      ensures wait == if started == BufferError then WaitDelay(old(View())) else 0
      ensures var n := CaptureSpec.EnterConfiguring(old(View()).(currentFormat := format), started, now);
        View() == if started == BufferError then n else n.(recovering := false)
      ensures sink.log == old(sink.log) + (if started == BufferError then [] else Reacquired(format, old(currentFormat)))
    {
      var previous := currentFormat;
      LearnFormat(format);
      wait, started, now := EnterConfiguring();
      EndOrKeepRecovering(previous);
      Joined(old(device.calls), [StartCall(config.bufferCount, started)], [CloseCall]);
    }

    /** A start that failed must not leave the device open between attempts. */
    method EndOrKeepRecovering(previous: StreamFormat)
      requires Wired() && device.Valid() && device.use == (if state == Streaming then Running else Ready(false))
      modifies this`recovering, device, device.kernel, sink
      ensures Wired() && device.Valid() && View() == if state == Streaming then old(View()).(recovering := false) else old(View())
      ensures sink.log == old(sink.log) + if state == Streaming then Reacquired(currentFormat, previous) else []
      ensures device.calls == old(device.calls) + if state == Streaming then [] else [CloseCall]
      ensures device.use == if state == Streaming then Running else Closed
    {
      if state == Streaming {
        EndRecovery(previous);
      } else {
        device.Close();
      }
    }

    method EndRecovery(previous: StreamFormat)
      requires Wired()
      modifies this`recovering, sink
      ensures Wired() && View() == old(View()).(recovering := false)
      ensures sink.log == old(sink.log) + Reacquired(currentFormat, previous)
    {
      recovering := false;
      ReportRecovery(currentFormat, previous);
    }

    method ReportRecovery(format: StreamFormat, previous: StreamFormat)
      modifies sink
      ensures sink.log == old(sink.log) + Reacquired(format, previous)
    {
      sink.Emit(PlainEvent(StallCleared));
      if format != previous {
        sink.Emit(Event(FormatChanged, format, previous, None));
      }
      sink.Emit(Event(StreamingStarted, format, UNSET_FORMAT, None));
    }

    /** The step began with a poll; if that timed out it is taken for a timeout, and it has
        waited for as long as it was told to. */
    twostate predicate Polled(pollTimeout: nat, a: Answers)
      reads this, device, device.kernel, clock
    {
      && |old(device.kernel.log)| < |device.kernel.log|
      && var reply := device.kernel.log[|old(device.kernel.log)|];
      && reply.PollReply? && reply.timeout == pollTimeout
      && (reply.polled == PollTimedOut ==>
            a.dequeue == Timeout && a.first >= old(clock.now) + pollTimeout * NS_PER_MS)
    }

    method StepStreaming(pollTimeout: nat) returns (wait: nat, ghost a: Answers)
      requires Wired() && device.Valid() && state == Streaming && !recovering && device.use == Running
      modifies this, device, device.kernel, clock, sink, stats, stats.frameIntervalSeconds,
               deviceAbsentBackoff, awaitingProducerBackoff
      ensures Took(CaptureSpec.StepStreaming(old(View()), a), a, wait) && Polled(pollTimeout, a)
    {
      wait := 0;
      var result;
      ghost var replies;
      result, replies := device.DequeueFrame(pollTimeout);
      assert device.kernel.log[|old(device.kernel.log)|] == replies[0];
      a := AfterPoll(result);
      Joined(old(device.calls), [DequeueCall(result)], CaptureSpec.AfterPoll(old(View()), a).calls);
    }

    /** What a poll of the device leads to. */
    method AfterPoll(result: DequeueAnswer) returns (ghost a: Answers)
      requires Wired() && device.Valid() && state == Streaming && !recovering
      requires device.use == if result.Frame? then Holding(result.frame.bufferIndex) else Running
      requires result.Frame? ==> result.frame.capturedAt == clock.now
      modifies this, device, device.kernel, clock, sink, stats, stats.frameIntervalSeconds,
               deviceAbsentBackoff, awaitingProducerBackoff
      ensures a.dequeue == result && Took(CaptureSpec.AfterPoll(old(View()), a), a, 0)
      ensures old(clock.now) <= a.first && old(device.kernel.log) <= device.kernel.log
    {
      a := Answers(clock.now, clock.now, 0, OpenResult.Absent, NoProducer, BufferError, result);
      match result
      case Frame(frame) =>
        ghost var wall, second := TakeFrame(frame);
        a := a.(wall := wall, second := second);
        assert device.calls == old(device.calls) + CaptureSpec.AfterPoll(old(View()), a).calls;
      case Timeout =>
        ghost var first, second := CheckSilence();
        a := a.(first := first, second := second);
      case DequeueError =>
        RecordFailure(DequeueFailed);
      case Lost =>
        ghost var second := LoseDevice();
        a := a.(second := second);
    }

    method TakeFrame(frame: FrameDescriptor) returns (ghost wall: nat, ghost now: int)
      requires Wired() && device.Valid() && device.use == Holding(frame.bufferIndex)
      modifies this, device, device.kernel, clock, sink, stats, stats.frameIntervalSeconds, awaitingProducerBackoff
      ensures old(device.kernel.log) <= device.kernel.log
      ensures clock.wallReadings == old(clock.wallReadings) + [wall]
      ensures Wired() && device.Valid() && old(clock.now) <= now == clock.now
      ensures var seen := CaptureSpec.CheckArrivalRate(CaptureSpec.HandleFrame(old(View()), frame, wall), frame.capturedAt);
        View() == if Mismatched(old(currentFormat), frame) then CaptureSpec.BeginReleaseCycle(seen, Geometry, now) else seen
      ensures device.use == if Mismatched(old(currentFormat), frame) then Closed else Running
      ensures device.calls == old(device.calls)
        + ([RequeueCall(frame.bufferIndex)] + if Mismatched(old(currentFormat), frame) then RELEASE else [])
      ensures sink.log == old(sink.log)
        + if Mismatched(old(currentFormat), frame) then [PlainEvent(StallDetected)] else []
    {
      now := clock.now;
      wall := HandleFrame(frame);
      CheckArrivalRate(frame.capturedAt);
      if !currentFormat.compressed && frame.bytesUsed != currentFormat.sizeImage {
        now := BeginReleaseCycle(Geometry);
        Joined(old(device.calls), [RequeueCall(frame.bufferIndex)], RELEASE);
      }
    }

    /** Whether this timed-out poll makes the session's silence a stall. */
    ghost predicate Overdue(now: int)
      reads this
    {
      haveLastFrame && now - lastFrameAt >= config.stallThreshold
    }

    method CheckSilence() returns (ghost first: int, ghost second: int)
      requires Wired() && device.Valid() && device.use == Running
      modifies this, device, device.kernel, clock`now, sink, stats, awaitingProducerBackoff
      ensures old(device.kernel.log) <= device.kernel.log
      ensures Wired() && device.Valid() && old(clock.now) <= first <= second == clock.now
      ensures View() == if old(Overdue(first)) then CaptureSpec.BeginReleaseCycle(old(View()), TimedOut, second) else old(View())
      ensures device.use == if old(Overdue(first)) then Closed else Running
      ensures device.calls == old(device.calls) + if old(Overdue(first)) then RELEASE else []
      ensures sink.log == old(sink.log) + if old(Overdue(first)) then [PlainEvent(StallDetected)] else []
    {
      var now := clock.SteadyNow();
      first, second := now, now;
      if haveLastFrame && now - lastFrameAt >= config.stallThreshold {
        second := BeginReleaseCycle(TimedOut);
      }
    }

    method Dispatch(pollTimeout: nat) returns (wait: nat, ghost a: Answers)
      requires Valid()
      modifies this, device, device.kernel, clock, sink, stats, stats.frameIntervalSeconds,
               deviceAbsentBackoff, awaitingProducerBackoff
      ensures old(state) == Streaming ==> Polled(pollTimeout, a)
      ensures Took(CaptureSpec.Step(old(View()), a), a, wait)
    {
      match state
      case DeviceAbsent =>
        wait, a := StepDeviceAbsent();
      case AwaitingProducer =>
        if recovering {
          wait, a := StepRecovering();
        } else {
          wait, a := StepAwaitingProducer();
        }
      case Streaming =>
        wait, a := StepStreaming(pollTimeout);
    }

    /** One step: the object takes the specified step for the answers it got, and is
        left fit for the next. */
    method Step(pollTimeout: nat) returns (wait: nat, ghost a: Answers)
      requires Valid()
      modifies this, device, device.kernel, clock, sink, stats, stats.frameIntervalSeconds,
               deviceAbsentBackoff, awaitingProducerBackoff
      ensures old(state) == Streaming ==> Polled(pollTimeout, a)
      ensures Valid() && Took(CaptureSpec.Step(old(View()), a), a, wait)
    {
      ghost var m := View();
      wait, a := Dispatch(pollTimeout);
      StepIsRead(m, a);
    }
  }
}
