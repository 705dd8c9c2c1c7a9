/** The counters that device calls feed, against the call log, in every reachable state. */
module Tallies {
  import opened Types
  import opened CaptureSpec

  /** What a call log adds up to. A release is told by the call just before it: a poll
      that timed out (a silence), a frame given back (a mismatch), a poll that found the
      device gone or an open that failed (a loss). An open that failed without a release
      after it is a failed open. */
  datatype Tally = Tally(
    openFailed: int, formatErrors: int, bufferErrors: int, dequeueErrors: int,
    losses: int, silences: int, mismatches: int,
    frames: int, bytes: int, starts: int, previous: Option<Call>)

  function Add(t: Tally, call: Call): Tally {
    var n := t.(previous := Some(call));
    match call
    case OpenCall(Absent) => n.(openFailed := t.openFailed + 1)
    case QueryCall(QueryError) => n.(formatErrors := t.formatErrors + 1)
    case StartCall(_, Started) => n.(starts := t.starts + 1)
    case StartCall(_, BufferError) => n.(bufferErrors := t.bufferErrors + 1)
    case DequeueCall(DequeueError) => n.(dequeueErrors := t.dequeueErrors + 1)
    case DequeueCall(Frame(f)) => n.(frames := t.frames + 1, bytes := t.bytes + f.bytesUsed)
    case StopCall => AddRelease(n, t.previous)
    case _ => n
  }

  function AddRelease(t: Tally, previous: Option<Call>): Tally {
    match previous
    case Some(DequeueCall(Timeout)) => t.(silences := t.silences + 1)
    case Some(RequeueCall(_)) => t.(mismatches := t.mismatches + 1)
    case Some(DequeueCall(Lost)) => t.(losses := t.losses + 1)
    case Some(OpenCall(Absent)) => t.(losses := t.losses + 1, openFailed := t.openFailed - 1)
    case _ => t
  }

  /** The sums alone. */
  function Settled(t: Tally): Tally {
    t.(previous := None)
  }

  function AddAll(t: Tally, calls: seq<Call>): Tally
    decreases |calls|
  {
    if calls == [] then t else AddAll(Add(t, calls[0]), calls[1..])
  }

  lemma {:induction false} AddInTwo(t: Tally, before: seq<Call>, after: seq<Call>)
    ensures AddAll(t, before + after) == AddAll(AddAll(t, before), after)
    decreases |before|
  {
    if before == [] {
      assert before + after == after;
    } else {
      assert (before + after)[1..] == before[1..] + after;
      AddInTwo(Add(t, before[0]), before[1..], after);
    }
  }

  lemma {:induction false} AddFirst(t: Tally, call: Call, later: seq<Call>)
    ensures AddAll(t, [call] + later) == AddAll(Add(t, call), later)
  {
    assert ([call] + later)[1..] == later;
  }

  lemma {:induction false} AddOne(t: Tally, call: Call)
    ensures AddAll(t, [call]) == Add(t, call)
  {
    assert [call] == [call] + [];
    AddFirst(t, call, []);
  }

  lemma {:induction false} AddBothCalls(t: Tally)
    ensures AddAll(t, RELEASE) == Add(Add(t, StopCall), CloseCall)
  {
    assert RELEASE == [StopCall] + [CloseCall];
    AddFirst(t, StopCall, [CloseCall]);
    AddOne(Add(t, StopCall), CloseCall);
  }

  /** What came before matters only to a release. */
  lemma {:induction false} StartAfresh(t: Tally, calls: seq<Call>)
    requires calls != [] ==> calls[0] != StopCall
    ensures Settled(AddAll(t, calls)) == Settled(AddAll(Settled(t), calls))
  {
    if calls != [] {
      assert Add(t, calls[0]) == Add(Settled(t), calls[0]);
    }
  }

  /** The same sums, read off the statistics. */
  function Exported(m: Machine): Tally {
    Tally(ErrorCount(m, OpenFailed), ErrorCount(m, FormatFailed), ErrorCount(m, BufferFailed),
          ErrorCount(m, DequeueFailed), ErrorCount(m, DeviceGone), ErrorCount(m, TimedOut),
          m.stats.stalls - ErrorCount(m, TimedOut),
          m.stats.framesReceived, m.stats.bytesReceived, |m.sessions|, None)
  }

  /** The outcome exports `t` and what its calls add to that. */
  ghost predicate Tallied(t: Tally, o: Outcome) {
    Exported(o.machine) == Settled(AddAll(t, o.calls))
  }

  ghost predicate FirstIsNoRelease(o: Outcome) {
    o.calls != [] ==> o.calls[0] != StopCall
  }

  lemma {:induction false} AbsentIsTallied(m: Machine, a: Answers)
    ensures Tallied(Exported(m), StepDeviceAbsent(m, a)) && FirstIsNoRelease(StepDeviceAbsent(m, a))
  {
    AddOne(Exported(m), OpenCall(a.open));
  }

  lemma {:induction false} StartIsTallied(m: Machine, count: uint32, start: StreamStartResult, now: int)
    ensures Exported(EnterConfiguring(m, start, now)) == Settled(Add(Exported(m), StartCall(count, start)))
  {
  }

  lemma {:induction false} StartAfterQuery(t: Tally, format: StreamFormat, start: Call)
    requires start.StartCall?
    ensures Add(Add(t, QueryCall(Known(format))), start) == Add(t, start)
  {
  }

  lemma {:induction false} AnnouncementIsNotTallied(m: Machine)
    ensures Exported(FirstStartOrReconnection(m)) == Exported(m)
  {
  }

  lemma {:induction false} KnownIsTallied(m: Machine, a: Answers)
    requires a.first >= m.nextAttemptAt && a.query.Known?
    ensures Tallied(Exported(m), StepAwaitingProducer(m, a))
  {
    var t, query, start := Exported(m), QueryCall(a.query), StartCall(m.config.bufferCount, a.start);
    var learnt := m.(currentFormat := a.query.format);
    StartIsTallied(learnt, m.config.bufferCount, a.start, a.second);
    AnnouncementIsNotTallied(EnterConfiguring(learnt, a.start, a.second));
    AddFirst(t, query, [start]);
    AddOne(Add(t, query), start);
    StartAfterQuery(t, a.query.format, start);
  }

  lemma {:induction false} AwaitingIsTallied(m: Machine, a: Answers)
    ensures Tallied(Exported(m), StepAwaitingProducer(m, a)) && FirstIsNoRelease(StepAwaitingProducer(m, a))
  {
    if a.first >= m.nextAttemptAt {
      AddOne(Exported(m), QueryCall(a.query));
      if a.query.Known? {
        KnownIsTallied(m, a);
      }
    }
  }

  lemma {:induction false} ProbedStartIsTallied(m: Machine, a: Answers)
    requires a.query.Known?
    ensures Tallied(Exported(m), Probe(m, a))
  {
    var t, start := Exported(m), StartCall(m.config.bufferCount, a.start);
    StartIsTallied(m.(currentFormat := a.query.format), m.config.bufferCount, a.start, a.second);
    AddOne(t, start);
    AddFirst(t, start, [CloseCall]);
    AddOne(Add(t, start), CloseCall);
    assert [start, CloseCall] == [start] + [CloseCall];
  }

  lemma {:induction false} ProbeIsTallied(m: Machine, a: Answers, t: Tally)
    requires Settled(t) == Settled(Add(Exported(m), QueryCall(a.query)))
    ensures Tallied(t, Probe(m, a)) && FirstIsNoRelease(Probe(m, a))
  {
    StartAfresh(t, Probe(m, a).calls);
    AddOne(Settled(t), CloseCall);
    if a.query.Known? {
      ProbedStartIsTallied(m, a);
    }
  }

  lemma {:induction false} LossIsTallied(m: Machine, now: int, t: Tally)
    requires || (t.previous == Some(DequeueCall(Lost)) && Settled(t) == Exported(m))
             || (t.previous == Some(OpenCall(Absent))
                 && Settled(t) == Exported(m).(openFailed := Exported(m).openFailed + 1))
    ensures Exported(LoseDevice(m, now)) == Settled(AddAll(t, RELEASE))
  {
    AddBothCalls(t);
  }

  lemma {:induction false} RecoveringIsTallied(m: Machine, a: Answers)
    ensures Tallied(Exported(m), StepRecovering(m, a)) && FirstIsNoRelease(StepRecovering(m, a))
  {
    var t, open, query := Exported(m), OpenCall(a.open), QueryCall(a.query);
    if a.first < m.nextAttemptAt {
    } else if a.open != Opened {
      AddFirst(t, open, RELEASE);
      LossIsTallied(m, a.second, Add(t, open));
    } else {
      var probe := Probe(m, a);
      AddFirst(t, open, [query] + probe.calls);
      AddFirst(Add(t, open), query, probe.calls);
      ProbeIsTallied(m, a, Add(Add(t, open), query));
    }
  }

  lemma {:induction false} HandledFrameIsTallied(m: Machine, f: FrameDescriptor, wall: nat)
    ensures Exported(HandleFrame(m, f, wall)) == Settled(Add(Exported(m), DequeueCall(Frame(f))))
  {
  }

  lemma {:induction false} VerdictIsNotTallied(m: Machine, t: int)
    ensures Exported(CheckArrivalRate(m, t)) == Exported(m)
  {
  }

  lemma {:induction false} ReleaseIsTallied(m: Machine, reason: ErrorReason, now: int, t: Tally)
    requires Settled(t) == Exported(m)
    requires || (reason == TimedOut && t.previous == Some(DequeueCall(Timeout)))
             || (reason == Geometry && t.previous.Some? && t.previous.value.RequeueCall?)
    ensures Exported(BeginReleaseCycle(m, reason, now)) == Settled(AddAll(t, RELEASE))
  {
    AddBothCalls(t);
  }

  lemma {:induction false} FrameIsTallied(m: Machine, f: FrameDescriptor, a: Answers)
    ensures Tallied(Add(Exported(m), DequeueCall(Frame(f))), TakeFrame(m, f, a))
  {
    var t, requeue := Add(Exported(m), DequeueCall(Frame(f))), RequeueCall(f.bufferIndex);
    var handled := HandleFrame(m, f, a.wall);
    HandledFrameIsTallied(m, f, a.wall);
    VerdictIsNotTallied(handled, f.capturedAt);
    ReleaseIsTallied(CheckArrivalRate(handled, f.capturedAt), Geometry, a.second, Add(t, requeue));
    AddFirst(t, requeue, []);
    AddFirst(t, requeue, RELEASE);
  }

  lemma {:induction false} StreamingIsTallied(m: Machine, a: Answers)
    ensures Tallied(Exported(m), StepStreaming(m, a)) && FirstIsNoRelease(StepStreaming(m, a))
  {
    var t, dequeue := Exported(m), DequeueCall(a.dequeue);
    AddFirst(t, dequeue, AfterPoll(m, a).calls);
    match a.dequeue
    case Frame(f) => FrameIsTallied(m, f, a);
    case Timeout => ReleaseIsTallied(m, TimedOut, a.second, Add(t, dequeue));
    case Lost => LossIsTallied(m, a.second, Add(t, dequeue));
    case DequeueError =>
  }

  lemma {:induction false} StepIsTallied(m: Machine, a: Answers)
    ensures Tallied(Exported(m), Step(m, a)) && FirstIsNoRelease(Step(m, a))
  {
    match m.state
    case DeviceAbsent => AbsentIsTallied(m, a);
    case AwaitingProducer =>
      if m.recovering {
        RecoveringIsTallied(m, a);
      } else {
        AwaitingIsTallied(m, a);
      }
    case Streaming => StreamingIsTallied(m, a);
    case _ =>
  }

  const NOTHING := Tally(0, 0, 0, 0, 0, 0, 0, 0, 0, 0, None)

  lemma {:induction false} RunIsTallied(h: History, answers: seq<Answers>)
    requires Exported(h.machine) == Settled(AddAll(NOTHING, h.calls))
    ensures var r := Run(h, answers); Exported(r.machine) == Settled(AddAll(NOTHING, r.calls))
    decreases |answers|
  {
    if answers != [] {
      var o := Step(h.machine, answers[0]);
      StepIsTallied(h.machine, answers[0]);
      AddInTwo(NOTHING, h.calls, o.calls);
      StartAfresh(AddAll(NOTHING, h.calls), o.calls);
      RunIsTallied(Advance(h, answers[0]), answers[1..]);
    }
  }

  /** In every reachable state the frames, the bytes, the sessions, the stalls by cause and
      the errors of opening, querying, starting, dequeuing and losing the device are what
      the call log adds up to. */
  lemma {:induction false} CallsExplainTheCounters(config: DaemonConfig, now: int, answers: seq<Answers>)
    ensures var h := Run(Begin(config, now), answers);
      Exported(h.machine) == Settled(AddAll(NOTHING, h.calls))
  {
    RunIsTallied(Begin(config, now), answers);
  }
}
