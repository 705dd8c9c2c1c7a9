/** The driving loop of the daemon (main.cpp): step, sleep, and on a stop request let
    go of the device. */
module Daemon {
  import opened Types
  import opened CaptureSpec
  import opened DeviceProtocol
  import opened CaptureStatistics
  import opened Clocks
  import opened V4l2
  import opened CaptureMachine
  import opened EventLog
  import opened JsonLogging

  const SLEEP_STEP: nat := 100

  /** The stop request: the flag reads false `patience` more times, and then true for
      good. */
  class StopFlag {
    var patience: nat

    method Load() returns (isSet: bool)
      modifies this
      ensures isSet <==> old(patience) == 0
      ensures patience == if isSet then 0 else old(patience) - 1
    {
      isSet := patience == 0;
      if !isSet {
        patience := patience - 1;
      }
    }
  }

  /** The slices that a sleep is cut into. */
  function Slices(total: nat): nat {
    (total + SLEEP_STEP - 1) / SLEEP_STEP
  }

  /** Sleep in slices, looking at the stop flag before each: the sleep ends when it is over,
      or at the first look that finds the flag set. */
  method InterruptibleSleep(clock: Clock, flag: StopFlag, total: nat) returns (slept: nat)
    modifies clock`now, flag
    ensures slept == if Slices(total) <= old(flag.patience) then total else 100 * old(flag.patience)
    ensures flag.patience == if Slices(total) <= old(flag.patience) then old(flag.patience) - Slices(total) else 0
    ensures clock.now >= old(clock.now) + slept * NS_PER_MS
  {
    var remaining := total;
    ghost var looks := 0;
    while remaining > 0
      invariant remaining <= total && looks <= old(flag.patience) && flag.patience == old(flag.patience) - looks
      invariant looks <= Slices(total)
      invariant remaining == if looks == Slices(total) then 0 else total - SLEEP_STEP * looks
      invariant clock.now >= old(clock.now) + (total - remaining) * NS_PER_MS
    {
      var stop := flag.Load();
      if stop {
        break;
      }
      var chunk := if remaining <= SLEEP_STEP then remaining else SLEEP_STEP;
      clock.SleepFor(chunk);
      remaining := remaining - chunk;
      looks := looks + 1;
    }
    slept := total - remaining;
  }

  lemma {:induction false} RunSnoc(h: History, answers: seq<Answers>, a: Answers)
    ensures Run(h, answers + [a]) == Advance(Run(h, answers), a)
  {
    RunInTwo(h, answers, [a]);
    var r := Run(h, answers);
    assert [a][1..] == [];
    assert Run(r, [a]) == Run(Advance(r, a), []);
  }

  /** The machine and its sink and device record the history `h`. */
  ghost predicate Records(machine: CaptureStateMachine, h: History)
    reads machine, machine.device, machine.sink, machine.stats, machine.stats.frameIntervalSeconds,
          machine.deviceAbsentBackoff, machine.awaitingProducerBackoff
  {
    machine.View() == h.machine && machine.sink.log == h.events && machine.device.calls == h.calls
  }

  /** One turn of the loop: a step, and then the wait it recommends, unless the flag is
      found set. */
  method Turn(machine: CaptureStateMachine, flag: StopFlag, ghost h: History) returns (ghost a: Answers)
    requires machine.Valid() && Records(machine, h)
    modifies machine, machine.device, machine.device.kernel, machine.clock, machine.sink, machine.stats,
             machine.stats.frameIntervalSeconds, machine.deviceAbsentBackoff, machine.awaitingProducerBackoff, flag
    ensures machine.Valid() && Records(machine, Advance(h, a))
    ensures InOrder(old(machine.clock.now), a) && a.second <= machine.clock.now
    ensures machine.clock.now >= Wakes(h.machine, a) || flag.patience == 0
    ensures flag.patience <= old(flag.patience)
    ensures old(machine.state) == Streaming ==> machine.Polled(200, a)
  {
    var wait;
    wait, a := machine.Step(200);
    var _ := InterruptibleSleep(machine.clock, flag, wait);
  }

  lemma {:induction false} PacedOn(h: History, now: int, answers: seq<Answers>, a: Answers, later: int)
    requires Paced(h, now, answers) && WakesAfter(h, now, answers) <= later && InOrder(later, a)
    ensures Paced(h, now, answers + [a])
    ensures WakesAfter(h, now, answers + [a]) == Wakes(Run(h, answers).machine, a)
  {
    PacedOnce(Run(h, answers), WakesAfter(h, now, answers), a);
    PacedInTwo(h, now, answers, [a]);
  }

  /** One turn, and the lines of the events it emitted. */
  method LoggedTurn(machine: CaptureStateMachine, log: JsonEventSink, flag: StopFlag, ghost h: History)
      returns (ghost a: Answers, ghost more: seq<Entry>)
    requires machine.Valid() && Records(machine, h)
    modifies machine, machine.device, machine.device.kernel, machine.clock, machine.sink, machine.stats,
             machine.stats.frameIntervalSeconds, machine.deviceAbsentBackoff, machine.awaitingProducerBackoff,
             log.logger.out, flag
    ensures machine.Valid() && Records(machine, Advance(h, a))
    ensures InOrder(old(machine.clock.now), a) && a.second <= machine.clock.now
    ensures machine.clock.now >= Wakes(h.machine, a) || flag.patience == 0
    ensures flag.patience <= old(flag.patience)
    ensures Stamps(more, CaptureSpec.Step(h.machine, a).events)
    ensures log.logger.out.text == old(log.logger.out.text) + LogText(log.logger.minLevel, more)
  {
    var seen := machine.sink.log;
    a := Turn(machine, flag, h);
    assert machine.sink.log[|seen|..] == CaptureSpec.Step(h.machine, a).events;
    more := log.EmitAll(machine.sink.log[|seen|..]);
  }

  /** Turn after turn until the flag is found set. */
  method Turns(machine: CaptureStateMachine, log: JsonEventSink, flag: StopFlag, ghost h: History)
      returns (ghost answers: seq<Answers>, ghost entries: seq<Entry>)
    requires machine.Valid() && Records(machine, h) && h.events == []
    modifies machine, machine.device, machine.device.kernel, machine.clock, machine.sink, machine.stats,
             machine.stats.frameIntervalSeconds, machine.deviceAbsentBackoff, machine.awaitingProducerBackoff,
             log.logger.out, flag
    ensures Paced(h, old(machine.clock.now), answers) && flag.patience == 0
    ensures machine.Valid() && Records(machine, Run(h, answers))
    ensures Stamps(entries, Run(h, answers).events)
    ensures log.logger.out.text == old(log.logger.out.text) + LogText(log.logger.minLevel, entries)
  {
    ghost var began := machine.clock.now;
    answers, entries := [], [];
    var stop := flag.Load();
    while !stop
      invariant Paced(h, began, answers)
      invariant WakesAfter(h, began, answers) <= machine.clock.now || (stop && flag.patience == 0)
      invariant stop ==> flag.patience == 0
      invariant machine.Valid() && Records(machine, Run(h, answers))
      invariant Stamps(entries, Run(h, answers).events)
      invariant log.logger.out.text == old(log.logger.out.text) + LogText(log.logger.minLevel, entries)
      decreases !stop, flag.patience
    {
      ghost var run, now := Run(h, answers), machine.clock.now;
      ghost var a, more := LoggedTurn(machine, log, flag, run);
      RunSnoc(h, answers, a);
      PacedOn(h, began, answers, a, now);
      StampsInTwo(entries, more, run.events, CaptureSpec.Step(run.machine, a).events);
      LogTextInTwo(log.logger.minLevel, entries, more);
      Joined(old(log.logger.out.text), LogText(log.logger.minLevel, entries), LogText(log.logger.minLevel, more));
      answers, entries := answers + [a], entries + more;
      stop := flag.Load();
    }
  }

  method Boot(kernel: Kernel, clock: Clock, config: DaemonConfig) returns (machine: CaptureStateMachine)
    requires kernel.Valid() && kernel.fds == {} && kernel.live == {}
    modifies clock`now
    ensures machine.Valid() && Records(machine, Begin(config, clock.now))
    ensures machine.device.kernel == kernel && machine.clock == clock
    ensures machine.device.requestedBefore == kernel.requested
    ensures fresh(machine) && fresh(machine.device) && fresh(machine.sink) && fresh(machine.stats)
    ensures fresh(machine.stats.frameIntervalSeconds)
    ensures fresh(machine.deviceAbsentBackoff) && fresh(machine.awaitingProducerBackoff)
  {
    var device := new V4L2CaptureDevice(kernel, clock);
    var stats := new CaptureStats();
    var sink := new EventSink();
    machine := new CaptureStateMachine(device, clock, sink, stats, config);
  }

  /** The loop and the shutdown. */
  method Operate(machine: CaptureStateMachine, log: JsonEventSink, flag: StopFlag, ghost config: DaemonConfig)
      returns (ghost answers: seq<Answers>, ghost entries: seq<Entry>)
    requires machine.Valid() && Records(machine, Begin(config, machine.clock.now))
    modifies machine, machine.device, machine.device.kernel, machine.clock, machine.sink, machine.stats,
             machine.stats.frameIntervalSeconds, machine.deviceAbsentBackoff, machine.awaitingProducerBackoff,
             log.logger.out, flag
    ensures Paced(Begin(config, old(machine.clock.now)), old(machine.clock.now), answers)
    ensures var h := Run(Begin(config, old(machine.clock.now)), answers);
      && machine.stats.View() == h.machine.stats
      && machine.sink.log == h.events
      && machine.device.calls == h.calls + RELEASE
    ensures Stamps(entries, machine.sink.log)
    ensures log.logger.out.text == old(log.logger.out.text) + LogText(log.logger.minLevel, entries)
    ensures machine.device.kernel.fds == {} && machine.device.kernel.live == {}
    ensures var device := machine.device;
      device.kernel.requested == Asked(device.requestedBefore, device.calls, |device.calls|)
  {
    answers, entries := Turns(machine, log, flag, Begin(config, machine.clock.now));
    machine.ReleaseDevice();
  }

  /** The daemon until it is asked to stop: what it emitted, counted and called is a run of
      the specification under a clock that never runs backwards, with every recommended
      wait slept out before the next step; the log holds the lines of exactly its events;
      after the shutdown calls nothing is held; and the kernel was asked for buffers once
      per start, always for the configured number. */
  method Serve(kernel: Kernel, clock: Clock, flag: StopFlag, logger: JsonLogger, config: DaemonConfig)
      returns (sink: EventSink, stats: CaptureStats, ghost began: int, ghost answers: seq<Answers>,
               ghost calls: seq<Call>, ghost entries: seq<Entry>)
    requires kernel.Valid() && kernel.fds == {} && kernel.live == {}
    modifies kernel, clock, flag, logger.out
    ensures Paced(Begin(config, began), began, answers) && ClockRuns(began, answers)
    ensures var h := Run(Begin(config, began), answers);
      && stats.View() == h.machine.stats
      && sink.log == h.events
      && calls == h.calls + RELEASE
      && ApplyAll(Closed, calls) == Closed
    ensures Stamps(entries, sink.log)
    ensures logger.out.text == old(logger.out.text) + LogText(logger.minLevel, entries)
    ensures kernel.fds == {} && kernel.live == {}
    ensures SinceThenOnly(config.bufferCount, old(kernel.requested), kernel.requested)
    ensures kernel.requested == Asked(old(kernel.requested), calls, |calls|)
  {
    var machine := Boot(kernel, clock, config);
    began := clock.now;
    var log := new JsonEventSink(logger);
    answers, entries := Operate(machine, log, flag, config);
    PacedKeepsTime(Begin(config, began), began, answers);
    ShutdownCloses(config, began, answers);
    ConfiguredBuffersAreAsked(config, began, answers, old(kernel.requested));
    sink, stats, calls := machine.sink, machine.stats, machine.device.calls;
  }
}
