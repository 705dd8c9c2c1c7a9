/** The discipline the state machine keeps towards its device, over every run: the
    call log is accepted by a reader of the ICaptureDevice contract, and what the
    device holds between steps is a function of the machine's state. */
module DeviceProtocol {
  import opened Types
  import opened CaptureSpec
  import opened EventLanguage

  /** What the device is in the middle of. `asked` is set by a query that delivered a
      format and used up by the start it was made for. */
  datatype Use = Closed | Ready(asked: bool) | Running | Holding(index: uint32) | Misused

  function Apply(q: Use, call: Call): Use {
    match (q, call)
    case (Closed, OpenCall(result)) => if result == Opened then Ready(false) else Closed
    case (Closed, StopCall) => Closed
    case (Closed, CloseCall) => Closed
    case (Ready(_), QueryCall(answer)) => Ready(answer.Known?)
    case (Ready(asked), StartCall(_, result)) =>
      if !asked then Misused else if result == Started then Running else Ready(false)
    case (Ready(asked), StopCall) => Ready(asked)
    case (Ready(_), CloseCall) => Closed
    case (Running, DequeueCall(answer)) => if answer.Frame? then Holding(answer.frame.bufferIndex) else Running
    case (Holding(i), RequeueCall(j)) => if i == j then Running else Misused
    case (Running, StopCall) => Ready(false)
    case _ => Misused
  }

  function ApplyAll(q: Use, calls: seq<Call>): Use
    decreases |calls|
  {
    if calls == [] then q else ApplyAll(Apply(q, calls[0]), calls[1..])
  }

  lemma {:induction false} ApplyInTwo(q: Use, before: seq<Call>, after: seq<Call>)
    ensures ApplyAll(q, before + after) == ApplyAll(ApplyAll(q, before), after)
    decreases |before|
  {
    if before == [] {
      assert before + after == after;
    } else {
      assert (before + after)[1..] == before[1..] + after;
      ApplyInTwo(Apply(q, before[0]), before[1..], after);
    }
  }

  /** A step makes at most four calls. */
  lemma {:induction false} ApplyShort(q: Use, calls: seq<Call>)
    requires |calls| <= 4
    ensures ApplyAll(q, calls)
         == match |calls|
            case 0 => q
            case 1 => Apply(q, calls[0])
            case 2 => Apply(Apply(q, calls[0]), calls[1])
            case 3 => Apply(Apply(Apply(q, calls[0]), calls[1]), calls[2])
            case _ => Apply(Apply(Apply(Apply(q, calls[0]), calls[1]), calls[2]), calls[3])
    decreases |calls|
  {
    if calls != [] {
      var rest := calls[1..];
      ApplyShort(Apply(q, calls[0]), rest);
      assert forall i :: 0 <= i < |rest| ==> rest[i] == calls[i + 1];
    }
  }

  /** What the device holds between steps. */
  function Holds(m: Machine): Use {
    match m.state
    case DeviceAbsent => Closed
    case AwaitingProducer => if m.recovering then Closed else Ready(false)
    case Streaming => Running
    case _ => Misused
  }

  ghost predicate Disciplined(m: Machine, o: Outcome) {
    |o.calls| <= 4 && ApplyAll(Holds(m), o.calls) == Holds(o.machine)
  }

  lemma {:induction false} RecoveringIsDisciplined(m: Machine, a: Answers)
    requires m.state == AwaitingProducer && m.recovering
    ensures Disciplined(m, StepRecovering(m, a))
  {
    ApplyShort(Closed, StepRecovering(m, a).calls);
  }

  lemma {:induction false} AwaitingIsDisciplined(m: Machine, a: Answers)
    requires m.state == AwaitingProducer && !m.recovering
    ensures Disciplined(m, StepAwaitingProducer(m, a))
  {
    ApplyShort(Ready(false), StepAwaitingProducer(m, a).calls);
  }

  lemma {:induction false} FrameIsDisciplined(m: Machine, a: Answers)
    requires m.state == Streaming && a.dequeue.Frame?
    ensures Disciplined(m, StepStreaming(m, a))
  {
    ApplyShort(Running, StepStreaming(m, a).calls);
  }

  lemma {:induction false} SilenceIsDisciplined(m: Machine, a: Answers)
    requires m.state == Streaming && !a.dequeue.Frame?
    ensures Disciplined(m, StepStreaming(m, a))
  {
    ApplyShort(Running, StepStreaming(m, a).calls);
  }

  lemma {:induction false} StepIsDisciplined(m: Machine, a: Answers)
    requires Consistent(m)
    ensures Disciplined(m, Step(m, a))
  {
    match m.state
    case DeviceAbsent =>
      ApplyShort(Closed, StepDeviceAbsent(m, a).calls);
    case AwaitingProducer =>
      if m.recovering {
        RecoveringIsDisciplined(m, a);
      } else {
        AwaitingIsDisciplined(m, a);
      }
    case Streaming =>
      if a.dequeue.Frame? {
        FrameIsDisciplined(m, a);
      } else {
        SilenceIsDisciplined(m, a);
      }
  }

  lemma {:induction false} RunIsDisciplined(h: History, answers: seq<Answers>)
    requires Consistent(h.machine) && ApplyAll(Closed, h.calls) == Holds(h.machine)
    ensures ApplyAll(Closed, Run(h, answers).calls) == Holds(Run(h, answers).machine)
    ensures Consistent(Run(h, answers).machine)
    decreases |answers|
  {
    if answers != [] {
      StepIsRead(h.machine, answers[0]);
      StepIsDisciplined(h.machine, answers[0]);
      ApplyInTwo(Closed, h.calls, Step(h.machine, answers[0]).calls);
      RunIsDisciplined(Advance(h, answers[0]), answers[1..]);
    }
  }

  lemma {:induction false} MisusedForGood(calls: seq<Call>)
    ensures ApplyAll(Misused, calls) == Misused
    decreases |calls|
  {
    if calls != [] {
      MisusedForGood(calls[1..]);
    }
  }

  lemma {:induction false} NeverMisused(calls: seq<Call>)
    requires ApplyAll(Closed, calls) != Misused
    ensures forall k :: 0 <= k <= |calls| ==> ApplyAll(Closed, calls[..k]) != Misused
  {
    forall k | 0 <= k <= |calls|
      ensures ApplyAll(Closed, calls[..k]) != Misused
    {
      assert calls == calls[..k] + calls[k..];
      ApplyInTwo(Closed, calls[..k], calls[k..]);
      MisusedForGood(calls[k..]);
    }
  }

  /** Over every run no call is ever made out of order, the device is open between
      steps exactly while Streaming or waiting before a first frame, runs exactly while
      Streaming, holds no dequeued buffer, and the shutdown calls leave it closed. */
  lemma {:induction false} CallProtocol(config: DaemonConfig, now: int, answers: seq<Answers>)
    ensures var h := Run(Begin(config, now), answers); var use := ApplyAll(Closed, h.calls);
      && (forall k :: 0 <= k <= |h.calls| ==> ApplyAll(Closed, h.calls[..k]) != Misused)
      && (use == Running <==> h.machine.state == Streaming)
      && (use == Closed <==> h.machine.state == DeviceAbsent || h.machine.recovering)
      && !use.Holding?
      && ApplyAll(Closed, h.calls + RELEASE) == Closed
  {
    var h := Run(Begin(config, now), answers);
    RunIsDisciplined(Begin(config, now), answers);
    NeverMisused(h.calls);
    ApplyInTwo(Closed, h.calls, RELEASE);
    ApplyShort(Holds(h.machine), RELEASE);
  }

  // ---- How many buffers are asked for -----------------------------------------------

  /** The numbers of buffers asked for, those before and in the first `k` calls. */
  function Asked(before: seq<uint32>, calls: seq<Call>, k: nat): seq<uint32>
    requires k <= |calls|
  {
    if k == 0 then before
    else if calls[k - 1].StartCall? then Asked(before, calls, k - 1) + [calls[k - 1].count]
    else Asked(before, calls, k - 1)
  }

  lemma {:induction false} AskedInFront(before: seq<uint32>, calls: seq<Call>, call: Call, k: nat)
    requires k <= |calls|
    ensures Asked(before, calls + [call], k) == Asked(before, calls, k)
  {
    if k > 0 {
      AskedInFront(before, calls, call, k - 1);
    }
  }

  /** Every start asks for `n` buffers. */
  ghost predicate AsksOnlyFor(n: uint32, calls: seq<Call>) {
    forall i :: 0 <= i < |calls| && calls[i].StartCall? ==> calls[i].count == n
  }

  /** All numbers asked for since `before` are `n`. */
  ghost predicate SinceThenOnly(n: uint32, before: seq<uint32>, asked: seq<uint32>) {
    before <= asked && forall i :: |before| <= i < |asked| ==> asked[i] == n
  }

  lemma {:induction false} AskedOnly(n: uint32, before: seq<uint32>, calls: seq<Call>, k: nat)
    requires AsksOnlyFor(n, calls) && k <= |calls|
    ensures SinceThenOnly(n, before, Asked(before, calls, k))
  {
    if k > 0 {
      AskedOnly(n, before, calls, k - 1);
    }
  }

  lemma {:induction false} StepAsks(m: Machine, a: Answers)
    ensures AsksOnlyFor(m.config.bufferCount, Step(m, a).calls)
  {
    match m.state
    case AwaitingProducer =>
      if m.recovering {
        assert Step(m, a) == StepRecovering(m, a);
      } else {
        assert Step(m, a) == StepAwaitingProducer(m, a);
      }
    case Streaming => assert Step(m, a) == StepStreaming(m, a);
    case _ =>
  }

  lemma {:induction false} RunAsks(h: History, answers: seq<Answers>)
    requires AsksOnlyFor(h.machine.config.bufferCount, h.calls)
    ensures AsksOnlyFor(h.machine.config.bufferCount, Run(h, answers).calls)
    decreases |answers|
  {
    if answers != [] {
      StepAsks(h.machine, answers[0]);
      StepKeepsConfig(h.machine, answers[0]);
      RunAsks(Advance(h, answers[0]), answers[1..]);
    }
  }

  /** Over every run, shutdown included, each start asks for the configured number of
      buffers, and nothing else is asked for. */
  lemma {:induction false} ConfiguredBuffersAreAsked(
      config: DaemonConfig, now: int, answers: seq<Answers>, before: seq<uint32>)
    ensures var calls := Run(Begin(config, now), answers).calls + RELEASE;
      && AsksOnlyFor(config.bufferCount, calls)
      && SinceThenOnly(config.bufferCount, before, Asked(before, calls, |calls|))
  {
    var calls := Run(Begin(config, now), answers).calls;
    RunAsks(Begin(config, now), answers);
    assert AsksOnlyFor(config.bufferCount, calls + RELEASE);
    AskedOnly(config.bufferCount, before, calls + RELEASE, |calls + RELEASE|);
  }

  lemma {:induction false} ShutdownCloses(config: DaemonConfig, now: int, answers: seq<Answers>)
    ensures ApplyAll(Closed, Run(Begin(config, now), answers).calls + RELEASE) == Closed
  {
    CallProtocol(config, now, answers);
  }
}
