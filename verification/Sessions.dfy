/** What the statistics mean: every counter fed by frames is a function of the
    streaming sessions, that is, of when each began and when its frames came. */
module Sessions {
  import opened Types
  import opened CaptureSpec
  import opened RateDetector
  import opened Tallies
  import Histograms

  /** The gaps between consecutive frames, in seconds. */
  function Gaps(ts: seq<int>): seq<real> {
    if |ts| < 2 then [] else Gaps(Init(ts)) + [Seconds(Last(ts) - ts[|ts| - 2])]
  }

  function AllGaps(ss: seq<Session>): seq<real> {
    if ss == [] then [] else AllGaps(Init(ss)) + Gaps(Last(ss).frames)
  }

  function TotalFrames(ss: seq<Session>): nat {
    if ss == [] then 0 else TotalFrames(Init(ss)) + |Last(ss).frames|
  }

  /** The sessions that delivered at least one frame. */
  function Productive(ss: seq<Session>): nat {
    if ss == [] then 0 else Productive(Init(ss)) + (if Last(ss).frames == [] then 0 else 1)
  }

  /** Last frame time minus first frame time, in nanoseconds, summed over the sessions. */
  function TotalSpan(ss: seq<Session>): int {
    if ss == [] then 0
    else
      var ts := Last(ss).frames;
      TotalSpan(Init(ss)) + (if ts == [] then 0 else Last(ts) - ts[0])
  }

  /** How many gaps between consecutive frames are at most `limit` nanoseconds. */
  function ShortGaps(ts: seq<int>, limit: int): nat {
    if |ts| < 2 then 0
    else ShortGaps(Init(ts), limit) + (if Last(ts) - ts[|ts| - 2] <= limit then 1 else 0)
  }

  function AllShortGaps(ss: seq<Session>, limit: int): nat {
    if ss == [] then 0 else AllShortGaps(Init(ss), limit) + ShortGaps(Last(ss).frames, limit)
  }

  function TotalEpisodes(fps: nat, ss: seq<Session>): nat {
    if ss == [] then 0 else TotalEpisodes(fps, Init(ss)) + Episodes(fps, Last(ss).start, Last(ss).frames)
  }

  /** The frame fields agree with the current session, the interval observations and
      the frame counter with all of them. */
  ghost predicate Counted(m: Machine) {
    && m.stats.intervals == AllGaps(m.sessions)
    && m.stats.framesReceived == TotalFrames(m.sessions)
    && (m.state != Streaming ==> !m.haveLastFrame)
    && (m.state == Streaming ==>
          && m.sessions != []
          && var ts := Last(m.sessions).frames;
          && (m.haveLastFrame <==> ts != [])
          && (m.haveLastFrame ==> m.lastFrameAt == Last(ts)))
  }

  /** The detector agrees with the current session, the errors with all of them. */
  ghost predicate Detected(m: Machine) {
    && ErrorCount(m, TimedOut) + ErrorCount(m, Geometry)
       == m.stats.stalls + TotalEpisodes(m.config.expectedFps, m.sessions)
    && (m.state == Streaming ==>
          && m.sessions != []
          && m.rate == After(m.config.expectedFps, Last(m.sessions).start, Last(m.sessions).frames))
  }

  /** A recovery step that gets as far as asking the device to start. */
  predicate Probes(m: Machine, a: Answers) {
    a.first >= m.nextAttemptAt && a.open == Opened && a.query.Known?
  }

  // ---- Frames and intervals --------------------------------------------------------

  lemma {:induction false} FrameExtendsGaps(ss: seq<Session>, t: int)
    requires ss != []
    ensures var more, s := WithFrame(ss, t), Last(ss);
      && more != [] && Last(more) == Session(s.start, s.frames + [t])
      && AllGaps(more) == (if s.frames == [] then AllGaps(ss) else AllGaps(ss) + [Seconds(t - Last(s.frames))])
      && TotalFrames(more) == TotalFrames(ss) + 1
  {
    var s := Last(ss);
    SnocParts(Init(ss), s.(frames := s.frames + [t]));
    SnocParts(s.frames, t);
    if s.frames != [] {
      assert (s.frames + [t])[|s.frames| - 1] == Last(s.frames);
      assert AllGaps(Init(ss)) + (Gaps(s.frames) + [Seconds(t - Last(s.frames))])
          == AllGaps(ss) + [Seconds(t - Last(s.frames))];
    }
  }

  lemma {:induction false} StartIsCounted(m: Machine, start: StreamStartResult, now: int)
    requires Counted(m) && m.state == AwaitingProducer
    ensures Counted(EnterConfiguring(m, start, now))
  {
    SnocParts(m.sessions, Session(now, []));
  }

  lemma {:induction false} HandledFrameIsCounted(m: Machine, f: FrameDescriptor, wall: nat)
    requires Counted(m) && m.state == Streaming
    ensures Counted(HandleFrame(m, f, wall))
  {
    FrameExtendsGaps(m.sessions, f.capturedAt);
  }

  lemma {:induction false} FrameIsCounted(m: Machine, f: FrameDescriptor, wall: nat)
    requires Counted(m) && m.state == Streaming
    ensures Counted(CheckArrivalRate(HandleFrame(m, f, wall), f.capturedAt))
  {
    HandledFrameIsCounted(m, f, wall);
  }

  lemma {:induction false} ReleaseIsCounted(m: Machine, reason: ErrorReason, now: int)
    requires Counted(m) && (reason == TimedOut || reason == Geometry)
    ensures Counted(BeginReleaseCycle(m, reason, now))
  {
  }

  lemma {:induction false} LossIsCounted(m: Machine, now: int)
    requires Counted(m)
    ensures Counted(LoseDevice(m, now))
  {
  }

  lemma {:induction false} StreamingIsCounted(m: Machine, a: Answers)
    requires Counted(m) && m.state == Streaming
    ensures Counted(StepStreaming(m, a).machine)
  {
    match a.dequeue
    case Frame(f) =>
      FrameIsCounted(m, f, a.wall);
      ReleaseIsCounted(CheckArrivalRate(HandleFrame(m, f, a.wall), f.capturedAt), Geometry, a.second);
    case Timeout =>
      ReleaseIsCounted(m, TimedOut, a.second);
    case Lost =>
      LossIsCounted(m, a.second);
    case DequeueError =>
  }

  lemma {:induction false} WaitIsCounted(m: Machine, a: Answers)
    requires Counted(m) && m.state == AwaitingProducer && !(a.first >= m.nextAttemptAt && a.query.Known?)
    ensures Counted(StepAwaitingProducer(m, a).machine)
  {
  }

  lemma {:induction false} FirstStartIsCounted(m: Machine, a: Answers)
    requires Counted(m) && m.state == AwaitingProducer && a.first >= m.nextAttemptAt && a.query.Known?
    ensures Counted(StepAwaitingProducer(m, a).machine)
  {
    StartIsCounted(m.(currentFormat := a.query.format), a.start, a.second);
  }

  lemma {:induction false} FailedProbeIsCounted(m: Machine, a: Answers)
    requires Counted(m) && m.state == AwaitingProducer && !Probes(m, a)
    ensures Counted(StepRecovering(m, a).machine)
  {
    LossIsCounted(m, a.second);
  }

  lemma {:induction false} ProbeIsCounted(m: Machine, a: Answers)
    requires Counted(m) && m.state == AwaitingProducer && Probes(m, a)
    ensures Counted(StepRecovering(m, a).machine)
  {
    StartIsCounted(m.(currentFormat := a.query.format), a.start, a.second);
  }

  lemma {:induction false} StepIsCounted(m: Machine, a: Answers)
    requires Counted(m)
    ensures Counted(Step(m, a).machine)
  {
    match m.state
    case AwaitingProducer =>
      if m.recovering {
        if Probes(m, a) {
          ProbeIsCounted(m, a);
        } else {
          FailedProbeIsCounted(m, a);
        }
      } else if a.first >= m.nextAttemptAt && a.query.Known? {
        FirstStartIsCounted(m, a);
      } else {
        WaitIsCounted(m, a);
      }
    case Streaming =>
      StreamingIsCounted(m, a);
    case _ =>
  }

  lemma {:induction false} RunIsCounted(h: History, answers: seq<Answers>)
    requires Counted(h.machine)
    ensures Counted(Run(h, answers).machine)
    decreases |answers|
  {
    if answers != [] {
      StepIsCounted(h.machine, answers[0]);
      RunIsCounted(Advance(h, answers[0]), answers[1..]);
    }
  }

  // ---- The detector and the errors ---------------------------------------------------

  lemma {:induction false} FrameExtendsEpisodes(fps: nat, ss: seq<Session>, t: int)
    requires ss != []
    ensures var more, s := WithFrame(ss, t), Last(ss);
      && more != [] && Last(more) == Session(s.start, s.frames + [t])
      && TotalEpisodes(fps, more)
         == TotalEpisodes(fps, ss) + (if OpensEpisode(fps, After(fps, s.start, s.frames), t) then 1 else 0)
      && After(fps, s.start, s.frames + [t]) == Observe(fps, After(fps, s.start, s.frames), t)
  {
    var s := Last(ss);
    SnocParts(Init(ss), s.(frames := s.frames + [t]));
    SnocParts(s.frames, t);
  }

  lemma {:induction false} StartIsDetected(m: Machine, start: StreamStartResult, now: int)
    requires Detected(m) && m.state == AwaitingProducer
    ensures Detected(EnterConfiguring(m, start, now))
  {
    SnocParts(m.sessions, Session(now, []));
  }

  lemma {:induction false} FrameIsDetected(m: Machine, f: FrameDescriptor, wall: nat)
    requires Detected(m) && m.state == Streaming
    ensures Detected(CheckArrivalRate(HandleFrame(m, f, wall), f.capturedAt))
  {
    FrameExtendsEpisodes(m.config.expectedFps, m.sessions, f.capturedAt);
  }

  lemma {:induction false} ReleaseIsDetected(m: Machine, reason: ErrorReason, now: int)
    requires Detected(m) && (reason == TimedOut || reason == Geometry)
    ensures Detected(BeginReleaseCycle(m, reason, now))
  {
  }

  lemma {:induction false} LossIsDetected(m: Machine, now: int)
    requires Detected(m)
    ensures Detected(LoseDevice(m, now))
  {
  }

  lemma {:induction false} StreamingIsDetected(m: Machine, a: Answers)
    requires Detected(m) && m.state == Streaming
    ensures Detected(StepStreaming(m, a).machine)
  {
    match a.dequeue
    case Frame(f) =>
      FrameIsDetected(m, f, a.wall);
      ReleaseIsDetected(CheckArrivalRate(HandleFrame(m, f, a.wall), f.capturedAt), Geometry, a.second);
    case Timeout =>
      ReleaseIsDetected(m, TimedOut, a.second);
    case Lost =>
      LossIsDetected(m, a.second);
    case DequeueError =>
  }

  lemma {:induction false} WaitIsDetected(m: Machine, a: Answers)
    requires Detected(m) && m.state == AwaitingProducer && !(a.first >= m.nextAttemptAt && a.query.Known?)
    ensures Detected(StepAwaitingProducer(m, a).machine)
  {
  }

  lemma {:induction false} FirstStartIsDetected(m: Machine, a: Answers)
    requires Detected(m) && m.state == AwaitingProducer && a.first >= m.nextAttemptAt && a.query.Known?
    ensures Detected(StepAwaitingProducer(m, a).machine)
  {
    StartIsDetected(m.(currentFormat := a.query.format), a.start, a.second);
  }

  lemma {:induction false} FailedProbeIsDetected(m: Machine, a: Answers)
    requires Detected(m) && m.state == AwaitingProducer && !Probes(m, a)
    ensures Detected(StepRecovering(m, a).machine)
  {
    LossIsDetected(m, a.second);
  }

  lemma {:induction false} ProbeIsDetected(m: Machine, a: Answers)
    requires Detected(m) && m.state == AwaitingProducer && Probes(m, a)
    ensures Detected(StepRecovering(m, a).machine)
  {
    StartIsDetected(m.(currentFormat := a.query.format), a.start, a.second);
  }

  lemma {:induction false} StepIsDetected(m: Machine, a: Answers)
    requires Detected(m)
    ensures Detected(Step(m, a).machine)
  {
    match m.state
    case AwaitingProducer =>
      if m.recovering {
        if Probes(m, a) {
          ProbeIsDetected(m, a);
        } else {
          FailedProbeIsDetected(m, a);
        }
      } else if a.first >= m.nextAttemptAt && a.query.Known? {
        FirstStartIsDetected(m, a);
      } else {
        WaitIsDetected(m, a);
      }
    case Streaming =>
      StreamingIsDetected(m, a);
    case _ =>
  }

  lemma {:induction false} RunIsDetected(h: History, answers: seq<Answers>)
    requires Detected(h.machine)
    ensures Detected(Run(h, answers).machine)
    decreases |answers|
  {
    if answers != [] {
      StepIsDetected(h.machine, answers[0]);
      RunIsDetected(Advance(h, answers[0]), answers[1..]);
    }
  }

  // ---- Frame times under a clock -----------------------------------------------------

  function Latest(s: Session): int {
    if s.frames == [] then s.start else Last(s.frames)
  }

  /** No session's frame times run backwards, and none lies after `now`. */
  ghost predicate InTime(m: Machine, now: int) {
    && (forall i :: 0 <= i < |m.sessions| ==> NeverBack(m.sessions[i].start, m.sessions[i].frames))
    && (m.state == Streaming ==> m.sessions != [] && Latest(Last(m.sessions)) <= now)
  }

  /** A step begins a session, adds a frame to the last, or leaves the sessions alone. */
  lemma {:induction false} SessionsMove(m: Machine, a: Answers)
    ensures var n := Step(m, a).machine;
      || (n.sessions == m.sessions && (n.state == Streaming ==> m.state == Streaming))
      || n.sessions == m.sessions + [Session(a.second, [])]
      || (m.state == Streaming && a.dequeue.Frame? && n.sessions == WithFrame(m.sessions, a.dequeue.frame.capturedAt))
  {
    match m.state
    case AwaitingProducer =>
      if m.recovering {
        assert Step(m, a) == StepRecovering(m, a);
      } else {
        assert Step(m, a) == StepAwaitingProducer(m, a);
      }
    case Streaming => assert Step(m, a) == StepStreaming(m, a);
    case _ =>
  }

  lemma {:induction false} FrameKeepsTime(s: Session, t: int)
    requires NeverBack(s.start, s.frames) && Latest(s) <= t
    ensures NeverBack(s.start, s.frames + [t])
  {
    var ts := s.frames + [t];
    forall i {:trigger Previous(s.start, ts, i)} | 0 <= i < |ts|
      ensures Previous(s.start, ts, i) <= ts[i]
    {
      if i < |s.frames| {
        assert Previous(s.start, ts, i) == Previous(s.start, s.frames, i);
      }
    }
  }

  lemma {:induction false} StepKeepsTime(m: Machine, now: int, a: Answers)
    requires InTime(m, now) && InOrder(now, a)
    ensures InTime(Step(m, a).machine, a.second)
  {
    SessionsMove(m, a);
    var ss, n := m.sessions, Step(m, a).machine;
    if m.state == Streaming && a.dequeue.Frame? && n.sessions == WithFrame(ss, a.dequeue.frame.capturedAt) {
      FrameKeepsTime(Last(ss), a.dequeue.frame.capturedAt);
      assert forall i :: 0 <= i < |ss| - 1 ==> n.sessions[i] == ss[i];
    }
  }

  lemma {:induction false} RunKeepsTime(h: History, now: int, answers: seq<Answers>)
    requires InTime(h.machine, now) && ClockRuns(now, answers)
    ensures InTime(Run(h, answers).machine, ClockAfter(now, answers))
    decreases |answers|
  {
    if answers != [] {
      var a, later := answers[0], answers[1..];
      assert answers == [a] + later;
      ClockRunsInTwo(now, [a], later);
      assert InOrder(now, a);
      StepKeepsTime(h.machine, now, a);
      RunKeepsTime(Advance(h, a), a.second, later);
    }
  }

  // ---- Theorems about every run --------------------------------------------------

  /** The histogram, the frame counter and the errors of timeout and geometry of every
      reachable state, read off its sessions and its call log: the stalls are the releases
      after silences and after mismatches, the timeouts those after silences, the geometry
      errors those after mismatches and the episodes of the detector. */
  lemma {:induction false} SessionsExplainTheStats(config: DaemonConfig, now: int, answers: seq<Answers>)
    ensures var h := Run(Begin(config, now), answers);
      var m, t := h.machine, AddAll(NOTHING, h.calls);
      && m.config == config
      && Counted(m) && Detected(m)
      && m.stats.intervals == AllGaps(m.sessions)
      && m.stats.framesReceived == TotalFrames(m.sessions)
      && m.stats.stalls == t.silences + t.mismatches
      && ErrorCount(m, TimedOut) == t.silences
      && ErrorCount(m, Geometry) == t.mismatches + TotalEpisodes(config.expectedFps, m.sessions)
  {
    RunIsCounted(Begin(config, now), answers);
    RunIsDetected(Begin(config, now), answers);
    ConfigStays(Begin(config, now), answers);
    CallsExplainTheCounters(config, now, answers);
  }

  lemma {:induction false} SumInTwo(a: seq<real>, b: seq<real>)
    ensures Histograms.Sum(a + b) == Histograms.Sum(a) + Histograms.Sum(b)
    decreases |b|
  {
    if b == [] {
      assert a + b == a;
    } else {
      assert Init(a + b) == a + Init(b) && Last(a + b) == Last(b);
      SumInTwo(a, Init(b));
    }
  }

  lemma {:induction false} GapsTelescope(ts: seq<int>)
    ensures Histograms.Sum(Gaps(ts)) * 1_000_000_000.0 == (if ts == [] then 0 else Last(ts) - ts[0]) as real
    ensures |Gaps(ts)| == if ts == [] then 0 else |ts| - 1
    decreases |ts|
  {
    if |ts| >= 2 {
      var before, gap := Init(ts), Seconds(Last(ts) - ts[|ts| - 2]);
      GapsTelescope(before);
      SnocParts(Gaps(before), gap);
      assert Last(before) == ts[|ts| - 2] && before[0] == ts[0];
    }
  }

  lemma {:induction false} AllGapsTelescope(ss: seq<Session>)
    ensures Histograms.Sum(AllGaps(ss)) * 1_000_000_000.0 == TotalSpan(ss) as real
    ensures |AllGaps(ss)| == TotalFrames(ss) - Productive(ss)
    decreases |ss|
  {
    if ss != [] {
      AllGapsTelescope(Init(ss));
      GapsTelescope(Last(ss).frames);
      SumInTwo(AllGaps(Init(ss)), Gaps(Last(ss).frames));
    }
  }

  lemma {:induction false} AtMostInTwo(a: seq<real>, b: seq<real>, limit: real)
    ensures Histograms.AtMost(a + b, limit) == Histograms.AtMost(a, limit) + Histograms.AtMost(b, limit)
    decreases |b|
  {
    if b == [] {
      assert a + b == a;
    } else {
      assert Init(a + b) == a + Init(b) && Last(a + b) == Last(b);
      AtMostInTwo(a, Init(b), limit);
    }
  }

  lemma {:induction false} GapsAreCounted(ts: seq<int>, bound: real, limit: int)
    requires bound * 1_000_000_000.0 == limit as real
    ensures Histograms.AtMost(Gaps(ts), bound) == ShortGaps(ts, limit)
    decreases |ts|
  {
    if |ts| >= 2 {
      GapsAreCounted(Init(ts), bound, limit);
      SnocParts(Gaps(Init(ts)), Seconds(Last(ts) - ts[|ts| - 2]));
    }
  }

  lemma {:induction false} AllGapsAreCounted(ss: seq<Session>, bound: real, limit: int)
    requires bound * 1_000_000_000.0 == limit as real
    ensures Histograms.AtMost(AllGaps(ss), bound) == AllShortGaps(ss, limit)
    decreases |ss|
  {
    if ss != [] {
      AllGapsAreCounted(Init(ss), bound, limit);
      GapsAreCounted(Last(ss).frames, bound, limit);
      AtMostInTwo(AllGaps(Init(ss)), Gaps(Last(ss).frames), bound);
    }
  }

  /** The bounds of the frame-interval histogram in nanoseconds. */
  const BOUNDS: seq<int> :=
    [5_000_000, 10_000_000, 20_000_000, 33_000_000, 50_000_000, 66_700_000, 100_000_000,
     150_000_000, 250_000_000, 500_000_000, 1_000_000_000, 2_000_000_000, 5_000_000_000]

  lemma {:induction false} BoundsAreBuckets(i: nat)
    requires i < 13
    ensures |BOUNDS| == |Histograms.FRAME_INTERVAL_BUCKETS| == 13
    ensures Histograms.FRAME_INTERVAL_BUCKETS[i] * 1_000_000_000.0 == BOUNDS[i] as real
  {
    var all := seq(13, i requires 0 <= i < 13 => Histograms.FRAME_INTERVAL_BUCKETS[i] * 1_000_000_000.0 == BOUNDS[i] as real);
    assert all[0] && all[1] && all[2] && all[3] && all[4] && all[5] && all[6];
    assert all[7] && all[8] && all[9] && all[10] && all[11] && all[12];
    assert all[i];
  }

  /** Over any run, in whole nanoseconds: the histogram's sum is the total of last minus
      first frame time over the sessions, its count is the frames received less the sessions
      that delivered any, and each rendered bucket counts the gaps between consecutive frames
      that are at most its bound. */
  lemma {:induction false} IntervalsTelescope(config: DaemonConfig, now: int, answers: seq<Answers>)
    ensures var m := Run(Begin(config, now), answers).machine;
      var h := Histograms.Recorded(Histograms.FRAME_INTERVAL_BUCKETS, m.stats.intervals);
      && h.sum * 1_000_000_000.0 == TotalSpan(m.sessions) as real
      && h.count == m.stats.framesReceived - Productive(m.sessions)
      && forall i :: 0 <= i < 13 ==>
           Histograms.Cumulative(h.bucketCounts, i + 1) == AllShortGaps(m.sessions, BOUNDS[i])
  {
    var m := Run(Begin(config, now), answers).machine;
    var bounds := Histograms.FRAME_INTERVAL_BUCKETS;
    SessionsExplainTheStats(config, now, answers);
    AllGapsTelescope(m.sessions);
    Histograms.InfinityIsCount(bounds, m.stats.intervals);
    Histograms.FrameIntervalBucketsOrdered();
    forall i | 0 <= i < 13
      ensures Histograms.Cumulative(Histograms.Recorded(bounds, m.stats.intervals).bucketCounts, i + 1)
           == AllShortGaps(m.sessions, BOUNDS[i])
    {
      BoundsAreBuckets(i);
      Histograms.RenderedIsRawCount(bounds, m.stats.intervals, i);
      AllGapsAreCounted(m.sessions, bounds[i], BOUNDS[i]);
    }
  }

  // ---- Sessions and calls -------------------------------------------------------------

  /** The frame times of one list per successful start, as the calls say. */
  function Deliver(lists: seq<seq<int>>, call: Call): seq<seq<int>> {
    match call
    case StartCall(_, Started) => lists + [[]]
    case DequeueCall(Frame(f)) => if lists == [] then lists else Init(lists) + [Last(lists) + [f.capturedAt]]
    case _ => lists
  }

  function Delivered(lists: seq<seq<int>>, calls: seq<Call>): seq<seq<int>>
    decreases |calls|
  {
    if calls == [] then lists else Delivered(Deliver(lists, calls[0]), calls[1..])
  }

  function FrameLists(ss: seq<Session>): seq<seq<int>> {
    if ss == [] then [] else FrameLists(Init(ss)) + [Last(ss).frames]
  }

  lemma {:induction false} DeliveredInTwo(lists: seq<seq<int>>, before: seq<Call>, after: seq<Call>)
    ensures Delivered(lists, before + after) == Delivered(Delivered(lists, before), after)
    decreases |before|
  {
    if before == [] {
      assert before + after == after;
    } else {
      assert (before + after)[1..] == before[1..] + after;
      DeliveredInTwo(Deliver(lists, before[0]), before[1..], after);
    }
  }

  /** The call delivers nothing. */
  predicate Idle(call: Call) {
    !(call.StartCall? && call.startResult == Started) && !(call.DequeueCall? && call.dequeued.Frame?)
  }

  lemma {:induction false} IdleCalls(lists: seq<seq<int>>, calls: seq<Call>)
    requires forall i :: 0 <= i < |calls| ==> Idle(calls[i])
    ensures Delivered(lists, calls) == lists
    decreases |calls|
  {
    if calls != [] {
      IdleCalls(lists, calls[1..]);
    }
  }

  /** All calls but the one at `k` are idle. */
  lemma {:induction false} OneDelivery(lists: seq<seq<int>>, calls: seq<Call>, k: nat)
    requires k < |calls| && forall i :: 0 <= i < |calls| && i != k ==> Idle(calls[i])
    ensures Delivered(lists, calls) == Deliver(lists, calls[k])
  {
    var before, after := calls[..k], calls[k..];
    assert calls == before + after;
    DeliveredInTwo(lists, before, after);
    IdleCalls(lists, before);
    IdleCalls(Deliver(lists, calls[k]), after[1..]);
  }

  lemma {:induction false} FrameListsSnoc(ss: seq<Session>, s: Session)
    ensures FrameLists(ss + [s]) == FrameLists(ss) + [s.frames]
  {
    SnocParts(ss, s);
  }

  lemma {:induction false} FrameListsWithFrame(ss: seq<Session>, f: FrameDescriptor)
    ensures FrameLists(WithFrame(ss, f.capturedAt)) == Deliver(FrameLists(ss), DequeueCall(Frame(f)))
  {
    if ss != [] {
      FrameListsSnoc(Init(ss), Last(ss).(frames := Last(ss).frames + [f.capturedAt]));
      SnocParts(FrameLists(Init(ss)), Last(ss).frames);
    }
  }

  /** The sessions of the outcome are those of the machine and what the calls deliver. */
  ghost predicate Delivers(m: Machine, o: Outcome) {
    FrameLists(o.machine.sessions) == Delivered(FrameLists(m.sessions), o.calls)
  }

  /** Only the call at `k` can deliver anything: it polls, or starts the stream at `t`. */
  ghost predicate DeliversAt(m: Machine, o: Outcome, k: nat, t: int) {
    && k < |o.calls|
    && (forall i :: 0 <= i < |o.calls| && i != k ==> Idle(o.calls[i]))
    && match o.calls[k]
       case StartCall(_, Started) => o.machine.sessions == m.sessions + [Session(t, [])]
       case DequeueCall(Frame(f)) => o.machine.sessions == WithFrame(m.sessions, f.capturedAt)
       case _ => o.machine.sessions == m.sessions
  }

  ghost predicate DeliversNothing(m: Machine, o: Outcome) {
    o.machine.sessions == m.sessions && forall i :: 0 <= i < |o.calls| ==> Idle(o.calls[i])
  }

  lemma {:induction false} DeliversEitherWay(m: Machine, o: Outcome, k: nat, t: int)
    requires DeliversAt(m, o, k, t) || DeliversNothing(m, o)
    ensures Delivers(m, o)
  {
    if DeliversNothing(m, o) {
      IdleCalls(FrameLists(m.sessions), o.calls);
    } else {
      OneDelivery(FrameLists(m.sessions), o.calls, k);
      FrameListsSnoc(m.sessions, Session(t, []));
      if o.calls[k].DequeueCall? && o.calls[k].dequeued.Frame? {
        FrameListsWithFrame(m.sessions, o.calls[k].dequeued.frame);
      }
    }
  }

  lemma {:induction false} StreamingDelivers(m: Machine, a: Answers)
    ensures DeliversAt(m, StepStreaming(m, a), 0, a.second)
  {
  }

  lemma {:induction false} AwaitingDelivers(m: Machine, a: Answers)
    ensures var o := StepAwaitingProducer(m, a);
      if |o.calls| == 2 then DeliversAt(m, o, 1, a.second) else DeliversNothing(m, o)
  {
  }

  lemma {:induction false} RecoveringDelivers(m: Machine, a: Answers)
    ensures var o := StepRecovering(m, a);
      if |o.calls| >= 3 && o.calls[2].StartCall? then DeliversAt(m, o, 2, a.second) else DeliversNothing(m, o)
  {
  }

  lemma {:induction false} StepDelivers(m: Machine, a: Answers)
    ensures Delivers(m, Step(m, a))
  {
    match m.state
    case DeviceAbsent => DeliversEitherWay(m, StepDeviceAbsent(m, a), 0, 0);
    case AwaitingProducer =>
      if m.recovering {
        RecoveringDelivers(m, a);
        DeliversEitherWay(m, StepRecovering(m, a), 2, a.second);
      } else {
        AwaitingDelivers(m, a);
        DeliversEitherWay(m, StepAwaitingProducer(m, a), 1, a.second);
      }
    case Streaming =>
      StreamingDelivers(m, a);
      DeliversEitherWay(m, StepStreaming(m, a), 0, a.second);
    case _ =>
  }

  lemma {:induction false} RunDelivers(h: History, answers: seq<Answers>)
    requires FrameLists(h.machine.sessions) == Delivered([], h.calls)
    ensures FrameLists(Run(h, answers).machine.sessions) == Delivered([], Run(h, answers).calls)
    decreases |answers|
  {
    if answers != [] {
      StepDelivers(h.machine, answers[0]);
      DeliveredInTwo([], h.calls, Step(h.machine, answers[0]).calls);
      RunDelivers(Advance(h, answers[0]), answers[1..]);
    }
  }

  /** In every reachable state the sessions are the successful starts of the call log, each
      with the times of exactly the frames dequeued after it and before the next. */
  lemma {:induction false} SessionsAreTheCalls(config: DaemonConfig, now: int, answers: seq<Answers>)
    ensures var h := Run(Begin(config, now), answers); FrameLists(h.machine.sessions) == Delivered([], h.calls)
  {
    RunDelivers(Begin(config, now), answers);
  }

  // ---- The time of the last frame ----------------------------------------------------

  /** What the wall clock read at each frame of the run. */
  function FrameWalls(h: History, answers: seq<Answers>): seq<nat>
    decreases |answers|
  {
    if answers == [] then []
    else
      var a := answers[0];
      (if h.machine.state == Streaming && a.dequeue.Frame? then [a.wall] else [])
      + FrameWalls(Advance(h, a), answers[1..])
  }

  ghost predicate StampsFrame(m: Machine, a: Answers, n: Machine) {
    if m.state == Streaming && a.dequeue.Frame? then
      n.stats.framesReceived == m.stats.framesReceived + 1 && n.stats.lastFrameUnixtime == a.wall / 1_000_000_000
    else
      n.stats.framesReceived == m.stats.framesReceived && n.stats.lastFrameUnixtime == m.stats.lastFrameUnixtime
  }

  lemma {:induction false} StreamingStampsFrame(m: Machine, a: Answers)
    requires m.state == Streaming
    ensures StampsFrame(m, a, StepStreaming(m, a).machine)
  {
  }

  lemma {:induction false} RecoveringStampsNoFrame(m: Machine, a: Answers)
    requires m.state != Streaming
    ensures StampsFrame(m, a, StepRecovering(m, a).machine)
  {
  }

  lemma {:induction false} AwaitingStampsNoFrame(m: Machine, a: Answers)
    requires m.state != Streaming
    ensures StampsFrame(m, a, StepAwaitingProducer(m, a).machine)
  {
  }

  lemma {:induction false} StepStampsFrame(m: Machine, a: Answers)
    ensures StampsFrame(m, a, Step(m, a).machine)
  {
    match m.state
    case AwaitingProducer =>
      if m.recovering {
        RecoveringStampsNoFrame(m, a);
      } else {
        AwaitingStampsNoFrame(m, a);
      }
    case Streaming => StreamingStampsFrame(m, a);
    case _ =>
  }

  lemma {:induction false} RunStampsFrames(h: History, answers: seq<Answers>)
    ensures var walls, s, t := FrameWalls(h, answers), h.machine.stats, Run(h, answers).machine.stats;
      && t.framesReceived == s.framesReceived + |walls|
      && t.lastFrameUnixtime == if walls == [] then s.lastFrameUnixtime else Last(walls) / 1_000_000_000
    decreases |answers|
  {
    if answers != [] {
      StepStampsFrame(h.machine, answers[0]);
      RunStampsFrames(Advance(h, answers[0]), answers[1..]);
    }
  }

  /** In every reachable state the last-frame time is the whole seconds of what the wall
      clock read at the latest frame, or 0 before any. */
  lemma {:induction false} LastFrameTime(config: DaemonConfig, now: int, answers: seq<Answers>)
    ensures var walls, s := FrameWalls(Begin(config, now), answers), Run(Begin(config, now), answers).machine.stats;
      && s.framesReceived == |walls|
      && s.lastFrameUnixtime == if walls == [] then 0 else Last(walls) / 1_000_000_000
  {
    RunStampsFrames(Begin(config, now), answers);
  }

  // ---- Rates ------------------------------------------------------------------------

  /** Every gap of the session, the one before its first frame included, is at least `d`. */
  ghost predicate Unhurried(s: Session, d: nat) {
    forall i {:trigger Previous(s.start, s.frames, i)} ::
      0 <= i < |s.frames| ==> s.frames[i] - Previous(s.start, s.frames, i) >= d
  }

  lemma {:induction false} UnhurriedSessionsAreQuiet(fps: nat, ss: seq<Session>, d: nat)
    requires 5 * fps * d >= 1_000_000_000
    requires forall i :: 0 <= i < |ss| ==> Unhurried(ss[i], d)
    ensures TotalEpisodes(fps, ss) == 0
    decreases |ss|
  {
    if ss != [] {
      UnhurriedSessionsAreQuiet(fps, Init(ss), d);
      NoFalseAlarm(fps, Last(ss).start, Last(ss).frames, d);
    }
  }

  /** Soundness over runs: if no session has a gap shorter than a fifth of the expected
      interval, every geometry error stands for a release after a mismatch, and no anomaly
      is active. */
  lemma {:induction false} NormalRatesAreNeverFlagged(config: DaemonConfig, now: int, answers: seq<Answers>, d: nat)
    requires 5 * config.expectedFps * d >= 1_000_000_000
    requires var ss := Run(Begin(config, now), answers).machine.sessions; forall i :: 0 <= i < |ss| ==> Unhurried(ss[i], d)
    ensures var h := Run(Begin(config, now), answers);
      var m := h.machine;
      && ErrorCount(m, Geometry) == AddAll(NOTHING, h.calls).mismatches
      && (m.state == Streaming ==> !m.rate.active)
  {
    var m := Run(Begin(config, now), answers).machine;
    SessionsExplainTheStats(config, now, answers);
    UnhurriedSessionsAreQuiet(config.expectedFps, m.sessions, d);
    if m.state == Streaming {
      NoFalseAlarm(config.expectedFps, Last(m.sessions).start, Last(m.sessions).frames, d);
    }
  }

  lemma {:induction false} NoRateIsQuiet(ss: seq<Session>)
    ensures TotalEpisodes(0, ss) == 0
    decreases |ss|
  {
    if ss != [] {
      NoRateIsQuiet(Init(ss));
      NoRateNoEpisode(Last(ss).start, Last(ss).frames);
    }
  }

  /** With no rate expected no run ever flags one: every geometry error stands for a release
      after a mismatch, and no anomaly is active. */
  lemma {:induction false} NoRateIsNeverFlagged(config: DaemonConfig, now: int, answers: seq<Answers>)
    requires config.expectedFps == 0
    ensures var h := Run(Begin(config, now), answers);
      && ErrorCount(h.machine, Geometry) == AddAll(NOTHING, h.calls).mismatches
      && (h.machine.state == Streaming ==> !h.machine.rate.active)
  {
    var m := Run(Begin(config, now), answers).machine;
    SessionsExplainTheStats(config, now, answers);
    NoRateIsQuiet(m.sessions);
    if m.state == Streaming {
      NoRateNoEpisode(Last(m.sessions).start, Last(m.sessions).frames);
    }
  }

  /** The geometry errors of all mismatches, and of the rate anomalies up to the first `j`
      frames of the current session. */
  function RecordedBefore(fps: nat, m: Machine, mismatches: int, j: nat): int
    requires m.sessions != [] && j <= |Last(m.sessions).frames|
  {
    var s := Last(m.sessions);
    mismatches + TotalEpisodes(fps, Init(m.sessions)) + Episodes(fps, s.start, s.frames[..j])
  }

  /** Completeness over runs: while streaming, a flood of frames that set in at `instant`
      is flagged once a frame comes four seconds and two gaps later, and costs at most one
      geometry error in all. */
  lemma {:induction false} FloodsAreFlagged(
      config: DaemonConfig, now: int, answers: seq<Answers>, j: nat, instant: int, g: nat)
    requires ClockRuns(now, answers)
    requires config.expectedFps > 0 && 5 * config.expectedFps * g < 1_000_000_000
    requires var m := Run(Begin(config, now), answers).machine;
      && m.state == Streaming && m.sessions != []
      && Floods(Last(m.sessions).start, Last(m.sessions).frames, j, instant, g)
    ensures var h := Run(Begin(config, now), answers);
      var recorded := RecordedBefore(config.expectedFps, h.machine, AddAll(NOTHING, h.calls).mismatches, j);
      && (h.machine.lastFrameAt >= instant + 4_000_000_000 + 2 * g ==> h.machine.rate.active)
      && recorded <= ErrorCount(h.machine, Geometry) <= recorded + 1
  {
    var m := Run(Begin(config, now), answers).machine;
    var s := Last(m.sessions);
    SessionsExplainTheStats(config, now, answers);
    RunKeepsTime(Begin(config, now), now, answers);
    FloodIsFlagged(config.expectedFps, s.start, s.frames, j, instant, g);
    assert s.frames[..|s.frames|] == s.frames;
  }

  /** The sum over the sessions of the rising edges of their window verdicts. */
  function TotalEdges(fps: nat, ss: seq<Session>): nat {
    if ss == [] then 0
    else TotalEdges(fps, Init(ss)) + RisingEdges(Verdicts(fps, Init(Cut(Last(ss).start, Last(ss).frames))))
  }

  lemma {:induction false} EpisodesAreEdges(fps: nat, ss: seq<Session>)
    ensures TotalEpisodes(fps, ss) == TotalEdges(fps, ss)
    decreases |ss|
  {
    if ss != [] {
      EpisodesAreEdges(fps, Init(ss));
      DetectorRefinesWindows(fps, Last(ss).start, Last(ss).frames);
    }
  }

  /** Cutting each session's frame times into windows explains every geometry error that is
      not a release after a mismatch, and the state of the detector while streaming. */
  lemma {:induction false} WindowsExplainTheErrors(config: DaemonConfig, now: int, answers: seq<Answers>)
    ensures var h := Run(Begin(config, now), answers);
      var m, t, fps := h.machine, AddAll(NOTHING, h.calls), config.expectedFps;
      && ErrorCount(m, TimedOut) == t.silences
      && ErrorCount(m, Geometry) == t.mismatches + TotalEdges(fps, m.sessions)
      && (m.state == Streaming ==>
            && m.sessions != []
            && var ws := Cut(Last(m.sessions).start, Last(m.sessions).frames);
            && m.rate.windowStart == Last(ws).start
            && m.rate.frameCount == |Last(ws).frames|
            && (m.rate.active <==> |ws| > 1 && Verdict(fps, ws[|ws| - 2])))
  {
    var m := Run(Begin(config, now), answers).machine;
    SessionsExplainTheStats(config, now, answers);
    EpisodesAreEdges(config.expectedFps, m.sessions);
    if m.state == Streaming {
      DetectorRefinesWindows(config.expectedFps, Last(m.sessions).start, Last(m.sessions).frames);
    }
  }
}
