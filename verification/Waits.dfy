/** The waits that steps recommend: what a caller that sleeps them out gets, and when
    there is none. */
module Waits {
  import opened Types
  import opened CaptureSpec
  import opened Backoffs
  import opened EventLanguage
  import opened Formats
  import opened Timing

  // ---- Sleeping them out ----------------------------------------------------------

  /** However late after a waiting step its recommended sleep begins, it ends less than a
      millisecond short of the next attempt, and past it by no more than the time since
      the step's first look at the clock. */
  lemma {:induction false} SleepsEndOnTime(m: Machine, a: Answers, begins: int)
    requires a.first <= a.second <= begins
    requires IsWait(PhaseOf(m)) && PhaseOf(Step(m, a).machine) == PhaseOf(m)
    ensures var o := Step(m, a);
      var ends := begins + o.wait * NS_PER_MS;
      && o.machine.nextAttemptAt - ends < NS_PER_MS
      && ends - o.machine.nextAttemptAt <= begins - a.first
  {
    match PhaseOf(m)
    case Absence => assert Step(m, a) == StepDeviceAbsent(m, a);
    case FirstWait => assert Step(m, a) == StepAwaitingProducer(m, a);
    case Recovery => assert Step(m, a) == StepRecovering(m, a);
  }

  /** A caller that wakes only when the wait is over finds the next attempt due. */
  lemma {:induction false} WokenOnTime(m: Machine, now: int, a: Answers)
    requires Consistent(m) && m.nextAttemptAt <= now && InOrder(now, a)
    ensures Step(m, a).machine.nextAttemptAt <= Wakes(m, a)
  {
    match m.state
    case DeviceAbsent => assert Step(m, a) == StepDeviceAbsent(m, a);
    case AwaitingProducer =>
      if m.recovering {
        assert Step(m, a) == StepRecovering(m, a);
      } else {
        assert Step(m, a) == StepAwaitingProducer(m, a);
      }
    case Streaming => assert Step(m, a) == StepStreaming(m, a);
  }

  lemma {:induction false} NeverEarlyFrom(h: History, now: int, answers: seq<Answers>, k: nat)
    requires Consistent(h.machine) && h.machine.nextAttemptAt <= now
    requires Paced(h, now, answers) && k < |answers|
    ensures answers[k].first >= Run(h, answers[..k]).machine.nextAttemptAt
    decreases k
  {
    if k > 0 {
      var a, later := answers[0], answers[1..];
      WokenOnTime(h.machine, now, a);
      StepIsRead(h.machine, a);
      NeverEarlyFrom(Advance(h, a), Wakes(h.machine, a), later, k - 1);
      assert answers[..k][1..] == later[..k - 1] && answers[..k][0] == a;
    }
  }

  /** In a run with every wait slept out no step comes before the next attempt is due: each
      waiting step makes an attempt. */
  lemma {:induction false} NeverEarly(config: DaemonConfig, now: int, answers: seq<Answers>, k: nat)
    requires Paced(Begin(config, now), now, answers) && k < |answers|
    ensures var m := Run(Begin(config, now), answers[..k]).machine;
      answers[k].first >= m.nextAttemptAt && (IsWait(PhaseOf(m)) ==> Attempts(m, answers[k]))
  {
    NeverEarlyFrom(Begin(config, now), now, answers, k);
    var m := Run(Begin(config, now), answers[..k]).machine;
    if IsWait(PhaseOf(m)) {
      AttemptsExactlyWhenDue(m, answers[k]);
    }
  }

  // ---- The delay after a failed attempt ---------------------------------------------

  /** The answers to an attempt that leave the machine waiting as before. */
  predicate FailsToAdvance(m: Machine, a: Answers) {
    match PhaseOf(m)
    case Absence => a.open != Opened
    case FirstWait => !(a.query.Known? && a.start == Started)
    case Recovery => a.open == Opened && !(a.query.Known? && a.start == Started)
    case _ => false
  }

  /** The delay, in milliseconds, that the backoff of the phase has come to. */
  function NextDelay(m: Machine): nat {
    Delay(m.config.reconnectInitialBackoff, MaxBackoff(m.config, PhaseOf(m)), Failures(m))
  }

  /** An attempt that fails recommends exactly the delay of the failures before it, and puts
      the next attempt off by that delay from a moment within the step. */
  lemma {:induction false} FailedAttemptWaits(m: Machine, a: Answers)
    requires a.first <= a.second && a.first >= m.nextAttemptAt && FailsToAdvance(m, a)
    ensures var o := Step(m, a);
      && o.wait == NextDelay(m)
      && a.first + NextDelay(m) * 1_000_000 <= o.machine.nextAttemptAt <= a.second + NextDelay(m) * 1_000_000
      && PhaseOf(o.machine) == PhaseOf(m) && Failures(o.machine) == Failures(m) + 1
  {
    match PhaseOf(m)
    case Absence => assert Step(m, a) == StepDeviceAbsent(m, a);
    case FirstWait => assert Step(m, a) == StepAwaitingProducer(m, a);
    case Recovery => assert Step(m, a) == StepRecovering(m, a);
  }

  /** The waits recommended by the attempts, in order. */
  function AttemptWaits(h: History, answers: seq<Answers>): seq<nat>
    decreases |answers|
  {
    if answers == [] then []
    else
      (if Attempts(h.machine, answers[0]) then [Step(h.machine, answers[0]).wait] else [])
      + AttemptWaits(Advance(h, answers[0]), answers[1..])
  }

  /** After `k` failures the waits of a phase are the delays from the k-th on. */
  ghost predicate WaitsFrom(c: DaemonConfig, p: Phase, k: nat, waits: seq<nat>) {
    forall i :: 0 <= i < |waits| ==> waits[i] == Delay(c.reconnectInitialBackoff, MaxBackoff(c, p), k + i)
  }

  lemma {:induction false} OneMoreWait(c: DaemonConfig, p: Phase, k: nat, wait: nat, rest: seq<nat>)
    requires wait == Delay(c.reconnectInitialBackoff, MaxBackoff(c, p), k) && WaitsFrom(c, p, k + 1, rest)
    ensures WaitsFrom(c, p, k, [wait] + rest)
  {
    var waits := [wait] + rest;
    forall i | 0 <= i < |waits|
      ensures waits[i] == Delay(c.reconnectInitialBackoff, MaxBackoff(c, p), k + i)
    {
      if i > 0 {
        assert rest[i - 1] == Delay(c.reconnectInitialBackoff, MaxBackoff(c, p), k + 1 + (i - 1));
      }
    }
  }

  /** A waiting step that is early, or an attempt that leaves the phase as it is. */
  lemma {:induction false} StayingFails(m: Machine, a: Answers)
    requires IsWait(PhaseOf(m)) && PhaseOf(Step(m, a).machine) == PhaseOf(m)
    ensures if Attempts(m, a) then a.first >= m.nextAttemptAt && FailsToAdvance(m, a) else Step(m, a).machine == m
  {
    match PhaseOf(m)
    case Absence => assert Step(m, a) == StepDeviceAbsent(m, a);
    case FirstWait => assert Step(m, a) == StepAwaitingProducer(m, a);
    case Recovery => assert Step(m, a) == StepRecovering(m, a);
  }

  lemma {:induction false} WaitsAreDelays(h: History, answers: seq<Answers>, p: Phase)
    requires IsWait(p) && StaysIn(h, answers, p) && StepsInOrder(answers)
    ensures WaitsFrom(h.machine.config, p, Failures(h.machine), AttemptWaits(h, answers))
    decreases |answers|
  {
    if answers != [] {
      var m, a, later := h.machine, answers[0], answers[1..];
      var next := Advance(h, a);
      assert StaysIn(next, later, p) && PhaseOf(next.machine) == p;
      assert StepsInOrder(later) by {
        assert forall i :: 0 <= i < |later| ==> later[i] == answers[i + 1];
      }
      StayingFails(m, a);
      StepKeepsConfig(m, a);
      WaitsAreDelays(next, later, p);
      if Attempts(m, a) {
        FailedAttemptWaits(m, a);
        OneMoreWait(m.config, p, Failures(m), Step(m, a).wait, AttemptWaits(next, later));
      } else {
        assert [] + AttemptWaits(next, later) == AttemptWaits(next, later);
      }
    }
  }

  /** The waits of a fresh backoff: the k-th (from 0) is exactly the k-th delay, and none
      exceeds both the initial and the maximum. */
  ghost predicate FreshWaits(c: DaemonConfig, p: Phase, waits: seq<nat>) {
    forall k :: 0 <= k < |waits| ==>
      && waits[k] == Delay(c.reconnectInitialBackoff, MaxBackoff(c, p), k)
      && (waits[k] <= c.reconnectInitialBackoff || waits[k] <= MaxBackoff(c, p))
  }

  /** The other half of the retry budget: from the entry into a waiting phase of any run the
      k-th attempt, failing, recommends exactly the k-th delay of a fresh backoff. */
  lemma {:induction false} RetryWaits(
      config: DaemonConfig, now: int, before: seq<Answers>, entry: Answers, waiting: seq<Answers>, p: Phase)
    requires IsWait(p) && StepsInOrder(waiting) && entry.first <= entry.second
    requires var h := Run(Begin(config, now), before);
      PhaseOf(h.machine) != p && StaysIn(Advance(h, entry), waiting, p)
    ensures FreshWaits(config, p, AttemptWaits(Advance(Run(Begin(config, now), before), entry), waiting))
  {
    var h := Run(Begin(config, now), before);
    LogIsAWord(config, now, before);
    ConfigStays(Begin(config, now), before);
    StepKeepsConfig(h.machine, entry);
    PhasesStartFresh(h.machine, entry);
    WaitsAreDelays(Advance(h, entry), waiting, p);
  }

  /** The same from start-up. */
  lemma {:induction false} StartupRetryWaits(config: DaemonConfig, now: int, waiting: seq<Answers>)
    requires StepsInOrder(waiting) && StaysIn(Begin(config, now), waiting, Absence)
    ensures FreshWaits(config, Absence, AttemptWaits(Begin(config, now), waiting))
  {
    WaitsAreDelays(Begin(config, now), waiting, Absence);
  }

  // ---- No wait --------------------------------------------------------------------

  /** The delay after the next failed attempt of the phase is zero. */
  predicate NoDelay(m: Machine) {
    || m.config.reconnectInitialBackoff == 0
    || (Failures(m) > 0 && MaxBackoff(m.config, PhaseOf(m)) == 0)
  }

  lemma {:induction false} PositiveProduct(a: nat, b: nat)
    requires a > 0 && b > 0
    ensures a * b > 0
  {
  }

  lemma {:induction false} DelayIsZeroIff(initial: nat, max: nat, k: nat)
    ensures Delay(initial, max, k) == 0 <==> initial == 0 || (k > 0 && max == 0)
  {
    if initial > 0 {
      PositiveProduct(initial, Pow2(k));
    }
  }

  /** A waiting step before the next attempt is due, with less than a millisecond left. */
  predicate AlmostDue(m: Machine, a: Answers) {
    a.first < m.nextAttemptAt && m.nextAttemptAt - a.first < NS_PER_MS
  }

  /** An attempt that fails and is followed by no delay. */
  predicate FailsAtOnce(m: Machine, a: Answers) {
    IsWait(PhaseOf(m)) && a.first >= m.nextAttemptAt && FailsToAdvance(m, a) && NoDelay(m)
  }

  /** A step recommends no wait exactly if it polled, or made an attempt that succeeds or
      loses the device, or one that fails with no delay, or found the next attempt due
      within the millisecond. */
  lemma {:induction false} ZeroWaitIff(m: Machine, a: Answers)
    requires Consistent(m)
    ensures Step(m, a).wait == 0 <==>
      || m.state == Streaming
      || (a.first >= m.nextAttemptAt && (FailsToAdvance(m, a) ==> NoDelay(m)))
      || AlmostDue(m, a)
  {
    DelayIsZeroIff(m.config.reconnectInitialBackoff, MaxBackoff(m.config, PhaseOf(m)), Failures(m));
    match m.state
    case DeviceAbsent => assert Step(m, a) == StepDeviceAbsent(m, a);
    case AwaitingProducer =>
      if m.recovering {
        assert Step(m, a) == StepRecovering(m, a);
      } else {
        assert Step(m, a) == StepAwaitingProducer(m, a);
      }
    case Streaming => assert Step(m, a) == StepStreaming(m, a);
  }

  /** Something happened: an event, or a frame. */
  predicate Progresses(m: Machine, a: Answers) {
    Step(m, a).events != [] || Step(m, a).machine.stats.framesReceived > m.stats.framesReceived
  }

  /** A poll of a session that is not yet a stall. */
  predicate Uneventful(m: Machine, a: Answers) {
    && m.state == Streaming
    && match a.dequeue
       case Timeout => !m.haveLastFrame || a.first - m.lastFrameAt < m.config.stallThreshold
       case DequeueError => true
       case _ => false
  }

  /** A zero wait is documented to mean progress, or a poll that has waited. It comes
      without progress exactly in three cases: a poll that brought nothing, which need not
      have waited if it failed; an attempt due within the millisecond; and an attempt that
      fails with no delay. */
  lemma {:induction false} ZeroWaitWithoutProgressIff(m: Machine, a: Answers)
    requires Consistent(m)
    ensures Step(m, a).wait == 0 && !Progresses(m, a) <==>
      || Uneventful(m, a)
      || (IsWait(PhaseOf(m)) && AlmostDue(m, a))
      || FailsAtOnce(m, a)
  {
    ZeroWaitIff(m, a);
    match m.state
    case DeviceAbsent => assert Step(m, a) == StepDeviceAbsent(m, a);
    case AwaitingProducer =>
      if m.recovering {
        assert Step(m, a) == StepRecovering(m, a);
      } else {
        assert Step(m, a) == StepAwaitingProducer(m, a);
      }
    case Streaming => assert Step(m, a) == StepStreaming(m, a);
  }

  /** In some run, with every wait slept out, a poll fails and the step recommends no wait
      all the same. */
  lemma {:induction false} FailedPollRecommendsNoWait(config: DaemonConfig, now: int)
    ensures exists answers, a ::
      && Paced(Begin(config, now), now, answers + [a]) && a.dequeue == DequeueError
      && var m := Run(Begin(config, now), answers).machine;
         m.state == Streaming && Step(m, a).wait == 0 && !Progresses(m, a)
  {
    var h := Begin(config, now);
    var answers := ReachStreaming(config, now);
    var t, live := WakesAfter(h, now, answers), Run(h, answers);
    var a := Answers(t, t, 0, Absent, NoProducer, BufferError, DequeueError);
    PacedOnce(live, t, a);
    PacedInTwo(h, now, answers, [a]);
    ZeroWaitWithoutProgressIff(live.machine, a);
  }

  // ---- When the other two cases arise -----------------------------------------------

  /** An attempt at `t` that opens as told and finds no producer. */
  function AttemptAt(t: int, open: OpenResult): Answers {
    Answers(t, t, 0, open, NoProducer, BufferError, Timeout)
  }

  /** Without an initial delay no wait is ever recommended, so any run has slept them out. */
  lemma {:induction false} NoDelaysToSleepOut(h: History, now: int, answers: seq<Answers>)
    requires Consistent(h.machine) && h.machine.nextAttemptAt <= now && h.machine.config.reconnectInitialBackoff == 0
    requires ClockRuns(now, answers)
    ensures Paced(h, now, answers)
    decreases |answers|
  {
    if answers != [] {
      var a, later := answers[0], answers[1..];
      assert answers == [a] + later;
      ClockRunsInTwo(now, [a], later);
      ZeroWaitIff(h.machine, a);
      WokenOnTime(h.machine, now, a);
      StepIsRead(h.machine, a);
      StepKeepsConfig(h.machine, a);
      NoDelaysToSleepOut(Advance(h, a), a.second, later);
    }
  }

  /** A step in the last millisecond of a backoff happens in some run, if the caller does
      not sleep out the waits, exactly if the initial delay is not zero. */
  lemma {:induction false} EarlyStepHappensIff(config: DaemonConfig, now: int)
    ensures config.reconnectInitialBackoff > 0 <==>
      exists answers, a ::
        && ClockRuns(now, answers + [a])
        && var m := Run(Begin(config, now), answers).machine; IsWait(PhaseOf(m)) && AlmostDue(m, a)
  {
    var h := Begin(config, now);
    if config.reconnectInitialBackoff > 0 {
      var a0 := AttemptAt(now, Absent);
      var a := AttemptAt(now + config.reconnectInitialBackoff * NS_PER_MS - 1, Absent);
      assert Run(h, [a0]) == Run(Advance(h, a0), []);
      assert ClockRuns(now, [a0] + [a]) by {
        assert InOrder(now, a0) && InOrder(a0.second, a);
      }
      assert AlmostDue(Run(h, [a0]).machine, a);
    } else {
      forall answers, a | ClockRuns(now, answers + [a])
        ensures !AlmostDue(Run(h, answers).machine, a)
      {
        NoDelaysToSleepOut(h, now, answers + [a]);
        NeverEarly(config, now, answers + [a], |answers|);
        assert (answers + [a])[..|answers|] == answers;
      }
    }
  }

  /** An attempt that fails and is followed by no delay happens in some run, every wait
      slept out, exactly if one of the configured delays is zero. */
  lemma {:induction false} FailureAtOnceHappensIff(config: DaemonConfig, now: int)
    ensures config.reconnectInitialBackoff == 0 || config.reconnectMaxBackoff == 0 || config.awaitingProducerMaxBackoff == 0
      <==> exists answers, a ::
             && Paced(Begin(config, now), now, answers + [a])
             && FailsAtOnce(Run(Begin(config, now), answers).machine, a)
  {
    var h := Begin(config, now);
    if config.reconnectInitialBackoff == 0 || config.reconnectMaxBackoff == 0 {
      AbsenceFailsAtOnce(config, now);
    } else if config.awaitingProducerMaxBackoff == 0 {
      WaitFailsAtOnce(config, now);
    }
    forall answers, a | FailsAtOnce(Run(h, answers).machine, a)
      ensures config.reconnectInitialBackoff == 0 || config.reconnectMaxBackoff == 0 || config.awaitingProducerMaxBackoff == 0
    {
      ConfigStays(h, answers);
    }
  }

  /** Twice absent: the second failure has the maximum for its delay if that is zero. */
  lemma {:induction false} AbsenceFailsAtOnce(config: DaemonConfig, now: int)
    requires config.reconnectInitialBackoff == 0 || config.reconnectMaxBackoff == 0
    ensures exists answers, a ::
      && Paced(Begin(config, now), now, answers + [a])
      && FailsAtOnce(Run(Begin(config, now), answers).machine, a)
  {
    var h, first := Begin(config, now), AttemptAt(now, Absent);
    var next := Advance(h, first);
    var second := AttemptAt(now + config.reconnectInitialBackoff * NS_PER_MS, Absent);
    PacedOnce(h, now, first);
    PacedOnce(next, Wakes(h.machine, first), second);
    PacedInTwo(h, now, [first], [second]);
    assert Run(h, [first]) == Run(next, []);
    assert FailsAtOnce(next.machine, second);
  }

  /** Opened, and twice no producer. */
  lemma {:induction false} WaitFailsAtOnce(config: DaemonConfig, now: int)
    requires config.awaitingProducerMaxBackoff == 0
    ensures exists answers, a ::
      && Paced(Begin(config, now), now, answers + [a])
      && FailsAtOnce(Run(Begin(config, now), answers).machine, a)
  {
    var h, opening := Begin(config, now), AttemptAt(now, Opened);
    var waiting := Advance(h, opening);
    var again := Advance(waiting, opening);
    var last := AttemptAt(now + config.reconnectInitialBackoff * NS_PER_MS, Opened);
    PacedOnce(h, now, opening);
    PacedOnce(waiting, Wakes(h.machine, opening), opening);
    PacedOnce(again, Wakes(waiting.machine, opening), last);
    assert Run(h, [opening]) == Run(waiting, []);
    assert Run(waiting, [opening]) == Run(again, []);
    PacedInTwo(h, now, [opening], [opening]);
    RunInTwo(h, [opening], [opening]);
    PacedInTwo(h, now, [opening] + [opening], [last]);
    assert FailsAtOnce(again.machine, last);
  }
}
