/** Retry budgets and stall timing, over runs. */
module Timing {
  import opened Types
  import opened CaptureSpec
  import opened Backoffs
  import opened EventLanguage
  import opened Formats
  import opened Sessions

  // ---- Retry budget ---------------------------------------------------------------

  datatype Phase = Absence | FirstWait | Recovery | Flow | Transient

  /** The three kinds of waiting, and streaming. */
  function PhaseOf(m: Machine): Phase {
    match m.state
    case DeviceAbsent => Absence
    case AwaitingProducer => if m.recovering then Recovery else FirstWait
    case Streaming => Flow
    case _ => Transient
  }

  predicate IsWait(p: Phase) {
    p == Absence || p == FirstWait || p == Recovery
  }

  /** The failures counted by the backoff that governs the phase. */
  function Failures(m: Machine): nat {
    if PhaseOf(m) == Absence then m.absentFailures else m.waitFailures
  }

  function MaxBackoff(c: DaemonConfig, p: Phase): nat {
    if p == Absence then c.reconnectMaxBackoff else c.awaitingProducerMaxBackoff
  }

  /** The pause, in nanoseconds, that follows the k-th failed attempt of a phase. */
  function Pause(c: DaemonConfig, p: Phase, k: nat): nat {
    NS_PER_MS * Delay(c.reconnectInitialBackoff, MaxBackoff(c, p), k)
  }

  /** A step of a waiting phase is an attempt if it touches the device. */
  predicate Attempts(m: Machine, a: Answers) {
    Step(m, a).calls != []
  }

  /** The second clock reading of a step is not before the first. */
  predicate StepsInOrder(answers: seq<Answers>) {
    forall i :: 0 <= i < |answers| ==> answers[i].first <= answers[i].second
  }

  ghost predicate StaysIn(h: History, answers: seq<Answers>, p: Phase)
    decreases |answers|
  {
    PhaseOf(h.machine) == p && (answers != [] ==> StaysIn(Advance(h, answers[0]), answers[1..], p))
  }

  function AttemptTimes(h: History, answers: seq<Answers>): seq<int>
    decreases |answers|
  {
    if answers == [] then []
    else
      (if Attempts(h.machine, answers[0]) then [answers[0].first] else [])
      + AttemptTimes(Advance(h, answers[0]), answers[1..])
  }

  /** What one step does that leaves a waiting phase unchanged. */
  ghost predicate Waits(m: Machine, o: Outcome, a: Answers) {
    && o.machine.config == m.config
    && (o.calls == [] ==> o.machine == m && a.first < m.nextAttemptAt)
    && (o.calls != [] ==>
          && a.first >= m.nextAttemptAt
          && o.machine.nextAttemptAt >= a.first + Pause(m.config, PhaseOf(m), Failures(m))
          && Failures(o.machine) == Failures(m) + 1)
  }

  lemma {:induction false} AbsenceWaits(m: Machine, a: Answers)
    requires PhaseOf(m) == Absence && PhaseOf(StepDeviceAbsent(m, a).machine) == Absence
    ensures Waits(m, StepDeviceAbsent(m, a), a)
  {
  }

  lemma {:induction false} FirstWaitWaits(m: Machine, a: Answers)
    requires a.first <= a.second
    requires PhaseOf(m) == FirstWait && PhaseOf(StepAwaitingProducer(m, a).machine) == FirstWait
    ensures Waits(m, StepAwaitingProducer(m, a), a)
  {
  }

  lemma {:induction false} RecoveryWaits(m: Machine, a: Answers)
    requires a.first <= a.second
    requires PhaseOf(m) == Recovery && PhaseOf(StepRecovering(m, a).machine) == Recovery
    ensures Waits(m, StepRecovering(m, a), a)
  {
  }

  lemma {:induction false} StepWaits(m: Machine, a: Answers)
    requires a.first <= a.second
    requires IsWait(PhaseOf(m)) && PhaseOf(Step(m, a).machine) == PhaseOf(m)
    ensures Waits(m, Step(m, a), a)
  {
    match PhaseOf(m)
    case Absence => AbsenceWaits(m, a);
    case FirstWait => FirstWaitWaits(m, a);
    case Recovery => RecoveryWaits(m, a);
  }

  /** Each attempt waits out the pause of the one before; `k` failures precede the first. */
  ghost predicate Spaced(c: DaemonConfig, p: Phase, k: nat, ts: seq<int>) {
    forall i :: 0 < i < |ts| ==> ts[i] >= ts[i - 1] + Pause(c, p, k + (i - 1))
  }

  lemma {:induction false} SpacedBehind(c: DaemonConfig, p: Phase, k: nat, t: int, rest: seq<int>)
    requires Spaced(c, p, k + 1, rest)
    requires rest != [] ==> rest[0] >= t + Pause(c, p, k)
    ensures Spaced(c, p, k, [t] + rest)
  {
    var ts := [t] + rest;
    forall i | 0 < i < |ts|
      ensures ts[i] >= ts[i - 1] + Pause(c, p, k + (i - 1))
    {
      if i > 1 {
        assert rest[i - 1] >= rest[i - 2] + Pause(c, p, k + 1 + (i - 2));
      }
    }
  }

  /** The last attempt, after `k` failures before the first, holds back the next. */
  ghost predicate HoldsBack(c: DaemonConfig, p: Phase, k: nat, ts: seq<int>, next: int) {
    ts != [] ==> next >= Last(ts) + Pause(c, p, k + |ts| - 1)
  }

  /** What attempts at `ts` make of a phase that had counted `k` failures and had its next
      attempt due at `due`; `m` is the machine after them. */
  ghost predicate KeepsPace(c: DaemonConfig, p: Phase, k: nat, due: int, ts: seq<int>, m: Machine) {
    && Spaced(c, p, k, ts)
    && (ts != [] ==> ts[0] >= due)
    && Failures(m) == k + |ts|
    && HoldsBack(c, p, k, ts, m.nextAttemptAt)
    && (ts == [] ==> m.nextAttemptAt == due)
  }

  lemma {:induction false} OneMoreAttempt(
      c: DaemonConfig, p: Phase, k: nat, due: int, t: int, dueAfter: int, rest: seq<int>, m: Machine)
    requires KeepsPace(c, p, k + 1, dueAfter, rest, m)
    requires t >= due && dueAfter >= t + Pause(c, p, k)
    ensures KeepsPace(c, p, k, due, [t] + rest, m)
  {
    SpacedBehind(c, p, k, t, rest);
    if rest != [] {
      assert Last([t] + rest) == Last(rest);
    }
  }

  /** Within a phase every attempt, whatever its failure, waits out the pause of the one
      before, and the last one holds back the next. */
  lemma {:induction false} AttemptsAreSpaced(h: History, answers: seq<Answers>, p: Phase)
    requires IsWait(p) && StaysIn(h, answers, p) && StepsInOrder(answers)
    ensures KeepsPace(h.machine.config, p, Failures(h.machine), h.machine.nextAttemptAt,
                      AttemptTimes(h, answers), Run(h, answers).machine)
    decreases |answers|
  {
    if answers != [] {
      var m, a, later := h.machine, answers[0], answers[1..];
      var next := Advance(h, a);
      assert StaysIn(next, later, p);
      assert PhaseOf(next.machine) == p;
      StepWaits(m, a);
      assert StepsInOrder(later) by {
        assert forall i :: 0 <= i < |later| ==> later[i] == answers[i + 1];
      }
      AttemptsAreSpaced(next, later, p);
      var rest := AttemptTimes(next, later);
      if Attempts(m, a) {
        OneMoreAttempt(m.config, p, Failures(m), m.nextAttemptAt, a.first,
                       next.machine.nextAttemptAt, rest, Run(next, later).machine);
      } else {
        assert [] + rest == rest;
      }
    }
  }

  /** A phase begins with a fresh backoff and an attempt due at once, whichever way it is
      entered. */
  lemma {:induction false} PhasesStartFresh(m: Machine, a: Answers)
    requires Consistent(m) && PhaseOf(Step(m, a).machine) != PhaseOf(m) && a.first <= a.second
    ensures Failures(Step(m, a).machine) == 0
    ensures IsWait(PhaseOf(Step(m, a).machine)) ==> Step(m, a).machine.nextAttemptAt <= a.second
  {
    match m.state
    case AwaitingProducer =>
      if m.recovering {
        assert Step(m, a) == StepRecovering(m, a);
      } else {
        assert Step(m, a) == StepAwaitingProducer(m, a);
      }
    case Streaming =>
      assert Step(m, a) == StepStreaming(m, a);
    case _ =>
  }

  /** A waiting step touches the device exactly if an attempt is due. */
  lemma {:induction false} AttemptsExactlyWhenDue(m: Machine, a: Answers)
    requires IsWait(PhaseOf(m))
    ensures Attempts(m, a) <==> a.first >= m.nextAttemptAt
  {
    if m.recovering && m.state == AwaitingProducer {
      assert Step(m, a) == StepRecovering(m, a);
    }
  }

  /** The total pause after the attempts `from` to `upTo - 1` of a phase. */
  function TotalPause(c: DaemonConfig, p: Phase, from: nat, upTo: nat): nat
    requires from <= upTo
    decreases upTo
  {
    if upTo == from then 0 else TotalPause(c, p, from, upTo - 1) + Pause(c, p, upTo - 1)
  }

  lemma {:induction false} SpacedSpan(c: DaemonConfig, p: Phase, ts: seq<int>, i: nat, j: nat)
    requires Spaced(c, p, 0, ts) && i <= j < |ts|
    ensures ts[j] - ts[i] >= TotalPause(c, p, i, j)
    decreases j
  {
    if i < j {
      SpacedSpan(c, p, ts, i, j - 1);
    }
  }

  lemma {:induction false} TotalPauseAtLeast(c: DaemonConfig, p: Phase, from: nat, upTo: nat)
    requires from <= upTo && c.reconnectInitialBackoff <= MaxBackoff(c, p)
    ensures TotalPause(c, p, from, upTo) >= (upTo - from) * c.reconnectInitialBackoff * NS_PER_MS
    decreases upTo
  {
    if from < upTo {
      TotalPauseAtLeast(c, p, from, upTo - 1);
      DelayShape(c.reconnectInitialBackoff, MaxBackoff(c, p), upTo - 1);
      assert (upTo - from) * c.reconnectInitialBackoff == (upTo - 1 - from) * c.reconnectInitialBackoff + c.reconnectInitialBackoff;
    }
  }

  lemma {:induction false} AttemptTimesSnoc(h: History, answers: seq<Answers>, a: Answers)
    ensures AttemptTimes(h, answers + [a])
         == AttemptTimes(h, answers) + if Attempts(Run(h, answers).machine, a) then [a.first] else []
    decreases |answers|
  {
    var all := answers + [a];
    if answers == [] {
      assert all[1..] == [];
    } else {
      assert all[1..] == answers[1..] + [a];
      AttemptTimesSnoc(Advance(h, answers[0]), answers[1..], a);
    }
  }

  lemma {:induction false} SpacedAhead(c: DaemonConfig, p: Phase, k: nat, ts: seq<int>, t: int)
    requires Spaced(c, p, k, ts) && HoldsBack(c, p, k, ts, t)
    ensures Spaced(c, p, k, ts + [t])
  {
    var all := ts + [t];
    forall i | 0 < i < |all|
      ensures all[i] >= all[i - 1] + Pause(c, p, k + (i - 1))
    {
      if i < |ts| {
        assert ts[i] >= ts[i - 1] + Pause(c, p, k + (i - 1));
      }
    }
  }

  /** Attempts as far apart as a phase demands, from a fresh backoff. */
  ghost predicate WithinBudget(c: DaemonConfig, p: Phase, ts: seq<int>) {
    && Spaced(c, p, 0, ts)
    && forall i, j :: 0 <= i <= j < |ts| ==> ts[j] - ts[i] >= TotalPause(c, p, i, j)
  }

  lemma {:induction false} FreshBudget(h: History, waiting: seq<Answers>, p: Phase, exit: Answers)
    requires IsWait(p) && StepsInOrder(waiting) && StaysIn(h, waiting, p) && Failures(h.machine) == 0
    ensures WithinBudget(h.machine.config, p, AttemptTimes(h, waiting + [exit]))
  {
    var c, ts, all := h.machine.config, AttemptTimes(h, waiting), AttemptTimes(h, waiting + [exit]);
    AttemptsAreSpaced(h, waiting, p);
    AttemptTimesSnoc(h, waiting, exit);
    StaysToTheEnd(h, waiting, p);
    AttemptsExactlyWhenDue(Run(h, waiting).machine, exit);
    if Attempts(Run(h, waiting).machine, exit) {
      SpacedAhead(c, p, 0, ts, exit.first);
    } else {
      assert all == ts;
    }
    forall i, j | 0 <= i <= j < |all|
      ensures all[j] - all[i] >= TotalPause(c, p, i, j)
    {
      SpacedSpan(c, p, all, i, j);
    }
  }

  lemma {:induction false} StaysToTheEnd(h: History, answers: seq<Answers>, p: Phase)
    requires StaysIn(h, answers, p)
    ensures PhaseOf(Run(h, answers).machine) == p
    decreases |answers|
  {
    if answers != [] {
      assert StaysIn(Advance(h, answers[0]), answers[1..], p);
      StaysToTheEnd(Advance(h, answers[0]), answers[1..], p);
    }
  }

  /** The retry budget. From the entry into a waiting phase of any run, up to and including
      the step that ends it, the k-th attempt (from 0) is followed by none for the k-th
      delay of a fresh backoff, whether the next one fails, succeeds or loses the device;
      attempts i to j span at least the pauses between them. All failures of a phase grow
      the one backoff. */
  lemma {:induction false} RetryBudget(
      config: DaemonConfig, now: int, before: seq<Answers>, entry: Answers, waiting: seq<Answers>, p: Phase, exit: Answers)
    requires IsWait(p) && StepsInOrder(waiting) && entry.first <= entry.second
    requires var h := Run(Begin(config, now), before);
      PhaseOf(h.machine) != p && StaysIn(Advance(h, entry), waiting, p)
    ensures WithinBudget(config, p, AttemptTimes(Advance(Run(Begin(config, now), before), entry), waiting + [exit]))
  {
    var h := Run(Begin(config, now), before);
    LogIsAWord(config, now, before);
    ConfigStays(Begin(config, now), before);
    StepKeepsConfig(h.machine, entry);
    PhasesStartFresh(h.machine, entry);
    FreshBudget(Advance(h, entry), waiting, p, exit);
  }

  /** The same from start-up, up to and including the step that opens the device. */
  lemma {:induction false} StartupRetryBudget(config: DaemonConfig, now: int, waiting: seq<Answers>, exit: Answers)
    requires StepsInOrder(waiting) && StaysIn(Begin(config, now), waiting, Absence)
    ensures WithinBudget(config, Absence, AttemptTimes(Begin(config, now), waiting + [exit]))
  {
    FreshBudget(Begin(config, now), waiting, Absence, exit);
  }

  /** Hence a bound on how many attempts fit into a stretch of time. */
  lemma {:induction false} AttemptsInATime(c: DaemonConfig, p: Phase, ts: seq<int>, i: nat, j: nat, span: nat)
    requires WithinBudget(c, p, ts) && i <= j < |ts| && ts[j] - ts[i] <= span
    ensures TotalPause(c, p, i, j) <= span
    ensures c.reconnectInitialBackoff <= MaxBackoff(c, p) ==> (j - i) * c.reconnectInitialBackoff * NS_PER_MS <= span
  {
    if c.reconnectInitialBackoff <= MaxBackoff(c, p) {
      TotalPauseAtLeast(c, p, i, j);
    }
  }

  // ---- Stall timing -----------------------------------------------------------------

  ghost predicate Silent(answers: seq<Answers>) {
    forall i :: 0 <= i < |answers| ==> answers[i].dequeue == Timeout
  }

  /** A timed-out poll releases the device exactly if the session has delivered a frame
      and the latest one is at least the threshold ago. */
  lemma {:induction false} StallReleaseIff(m: Machine, a: Answers)
    requires Counted(m) && m.state == Streaming && a.dequeue == Timeout && !m.recovering
    ensures var n := Step(m, a).machine; var ts := Last(m.sessions).frames;
      && (n.recovering <==> ts != [] && a.first - Last(ts) >= m.config.stallThreshold)
      && (n.recovering ==>
            && n.state == AwaitingProducer
            && n.stats.stalls == m.stats.stalls + 1
            && ErrorCount(n, TimedOut) == ErrorCount(m, TimedOut) + 1)
      && (!n.recovering ==> n == m)
  {
    assert Step(m, a) == StepStreaming(m, a);
  }

  /** A frame releases the device exactly if its payload is not of the exact size that an
      uncompressed format requires, however soon it came. */
  lemma {:induction false} MismatchReleaseIff(m: Machine, a: Answers)
    requires m.state == Streaming && a.dequeue.Frame? && !m.recovering
    ensures var n := Step(m, a).machine; var f := a.dequeue.frame;
      && (n.recovering <==> !m.currentFormat.compressed && f.bytesUsed != m.currentFormat.sizeImage)
      && n.state == (if n.recovering then AwaitingProducer else Streaming)
      && n.stats.stalls == m.stats.stalls + (if n.recovering then 1 else 0)
      && ErrorCount(n, TimedOut) == ErrorCount(m, TimedOut)
  {
    assert Step(m, a) == StepStreaming(m, a);
  }

  lemma {:induction false} OtherStepsReleaseNothing(m: Machine, a: Answers)
    requires Consistent(m) && (m.state == Streaming ==> a.dequeue == Lost || a.dequeue == DequeueError)
    ensures var n := Step(m, a).machine;
      && n.stats.stalls == m.stats.stalls && ErrorCount(n, TimedOut) == ErrorCount(m, TimedOut)
      && (n.recovering ==> m.recovering)
  {
    match m.state
    case AwaitingProducer =>
      if m.recovering {
        assert Step(m, a) == StepRecovering(m, a);
      } else {
        assert Step(m, a) == StepAwaitingProducer(m, a);
      }
    case Streaming => assert Step(m, a) == StepStreaming(m, a);
    case _ =>
  }

  /** The poll timed out, and the latest frame of this session, there being one, is at
      least the threshold ago. */
  predicate SilentTooLong(m: Machine, a: Answers) {
    && m.state == Streaming && a.dequeue == Timeout && m.sessions != []
    && var ts := Last(m.sessions).frames;
       ts != [] && a.first - Last(ts) >= m.config.stallThreshold
  }

  /** A frame came whose payload is not of the exact size of the published format. */
  predicate WrongSize(m: Machine, a: Answers) {
    && m.state == Streaming && a.dequeue.Frame?
    && m.stats.streamInfo.Some? && !m.stats.streamInfo.value.compressed
    && a.dequeue.frame.bytesUsed != m.stats.streamInfo.value.sizeImage
  }

  /** In every run, whatever is answered next: a stall is counted, and recovery begins,
      exactly if the session has been silent too long or a frame is of the wrong size, and
      a timeout is counted exactly in the first case. */
  lemma {:induction false} StallsAreDeserved(config: DaemonConfig, now: int, before: seq<Answers>, a: Answers)
    ensures var m := Run(Begin(config, now), before).machine; var n := Step(m, a).machine;
      && ErrorCount(n, TimedOut) == ErrorCount(m, TimedOut) + (if SilentTooLong(m, a) then 1 else 0)
      && n.stats.stalls == m.stats.stalls + (if SilentTooLong(m, a) || WrongSize(m, a) then 1 else 0)
      && (n.recovering && !m.recovering <==> SilentTooLong(m, a) || WrongSize(m, a))
  {
    var m := Run(Begin(config, now), before).machine;
    SessionsExplainTheStats(config, now, before);
    FormatsFollowTheCalls(config, now, before);
    LogIsAWord(config, now, before);
    if m.state == Streaming && a.dequeue == Timeout {
      StallReleaseIff(m, a);
    } else if m.state == Streaming && a.dequeue.Frame? {
      MismatchReleaseIff(m, a);
    } else {
      OtherStepsReleaseNothing(m, a);
    }
  }

  /** The first poll that finds the session silent for the threshold. */
  function FirstSilent(answers: seq<Answers>, last: int, threshold: nat): (k: nat)
    requires answers != [] && Last(answers).first - last >= threshold
    ensures k < |answers| && answers[k].first - last >= threshold
    ensures forall i :: 0 <= i < k ==> answers[i].first - last < threshold
  {
    if answers[0].first - last >= threshold then 0
    else 1 + FirstSilent(answers[1..], last, threshold)
  }

  lemma {:induction false} QuietPollsChangeNothing(h: History, answers: seq<Answers>)
    requires Counted(h.machine) && h.machine.state == Streaming && !h.machine.recovering && Silent(answers)
    requires h.machine.haveLastFrame ==>
      forall i :: 0 <= i < |answers| ==> answers[i].first - h.machine.lastFrameAt < h.machine.config.stallThreshold
    ensures Run(h, answers).machine == h.machine
    decreases |answers|
  {
    if answers != [] {
      StallReleaseIff(h.machine, answers[0]);
      assert Silent(answers[1..]);
      assert forall i :: 0 <= i < |answers[1..]| ==> answers[1..][i] == answers[i + 1];
      QuietPollsChangeNothing(Advance(h, answers[0]), answers[1..]);
    }
  }

  /** Until the first frame of a session arrives no silence ever counts as a stall. */
  lemma {:induction false} NoFrameNoStall(config: DaemonConfig, now: int, before: seq<Answers>, polls: seq<Answers>)
    requires var m := Run(Begin(config, now), before).machine;
      m.state == Streaming && m.sessions != [] && Last(m.sessions).frames == []
    requires Silent(polls)
    ensures Run(Begin(config, now), before + polls).machine == Run(Begin(config, now), before).machine
  {
    var h := Run(Begin(config, now), before);
    SessionsExplainTheStats(config, now, before);
    LogIsAWord(config, now, before);
    QuietPollsChangeNothing(h, polls);
    RunInTwo(Begin(config, now), before, polls);
  }

  /** If after a frame every poll times out and polls are at most `p` apart, the device is
      released within the threshold plus `p` of that frame, and not before the threshold. */
  lemma {:induction false} StallIsCaughtInTime(
      config: DaemonConfig, now: int, before: seq<Answers>, polls: seq<Answers>, p: nat)
    requires var m := Run(Begin(config, now), before).machine;
      && m.state == Streaming && m.haveLastFrame && polls != [] && Silent(polls) && p > 0
      && polls[0].first - m.lastFrameAt <= p
      && (forall i :: 0 < i < |polls| ==> polls[i].first - polls[i - 1].first <= p)
      && Last(polls).first - m.lastFrameAt >= m.config.stallThreshold
    ensures var h := Run(Begin(config, now), before);
      var k := FirstSilent(polls, h.machine.lastFrameAt, h.machine.config.stallThreshold);
      && Run(h, polls[..k]).machine == h.machine
      && polls[k].first <= h.machine.lastFrameAt + h.machine.config.stallThreshold + p
      && var n := Step(h.machine, polls[k]).machine;
      && n.recovering && n.state == AwaitingProducer && n.stats.stalls == h.machine.stats.stalls + 1
  {
    var h := Run(Begin(config, now), before);
    SessionsExplainTheStats(config, now, before);
    LogIsAWord(config, now, before);
    var k := FirstSilent(polls, h.machine.lastFrameAt, h.machine.config.stallThreshold);
    assert Silent(polls[..k]);
    assert forall i :: 0 <= i < k ==> polls[..k][i] == polls[i];
    QuietPollsChangeNothing(h, polls[..k]);
    StallReleaseIff(h.machine, polls[k]);
    assert k > 0 ==> polls[k].first - polls[k - 1].first <= p;
  }

  lemma {:induction false} StallsRestOffStream(m: Machine, a: Answers)
    requires m.state != Streaming
    ensures Step(m, a).machine.stats.stalls == m.stats.stalls
  {
    match m.state
    case AwaitingProducer =>
      if m.recovering {
        assert Step(m, a) == StepRecovering(m, a);
      } else {
        assert Step(m, a) == StepAwaitingProducer(m, a);
      }
    case _ =>
  }

  ghost predicate NeverStreams(h: History, answers: seq<Answers>)
    decreases |answers|
  {
    h.machine.state != Streaming && (answers != [] ==> NeverStreams(Advance(h, answers[0]), answers[1..]))
  }

  /** After a release the stall counter stands still until streaming resumes. */
  lemma {:induction false} StallsStandStill(h: History, answers: seq<Answers>)
    requires NeverStreams(h, answers)
    ensures Run(h, answers).machine.stats.stalls == h.machine.stats.stalls
    decreases |answers|
  {
    if answers != [] {
      StallsRestOffStream(h.machine, answers[0]);
      assert NeverStreams(Advance(h, answers[0]), answers[1..]);
      StallsStandStill(Advance(h, answers[0]), answers[1..]);
    }
  }
}
