/** Exact accounting: the exported counters against the event log, in every
    reachable state. */
module Accounting {
  import opened Types
  import opened CaptureSpec
  import opened EventLanguage

  function Count(word: seq<EventKind>, kind: EventKind): nat {
    if word == [] then 0 else Count(Init(word), kind) + (if Last(word) == kind then 1 else 0)
  }

  /** Stalls that ended in the loss of the device rather than in a reacquisition. */
  function LostWhileStalled(word: seq<EventKind>): nat {
    if |word| < 2 then 0
    else LostWhileStalled(Init(word)) + (if word[|word| - 2] == StallDetected && Last(word) == DeviceLost then 1 else 0)
  }

  function Flag(b: bool): nat {
    if b then 1 else 0
  }

  function Seen(q: Reader): bool {
    match q
    case Gone(seen) => seen
    case Opening(seen) => seen
    case Waiting(seen) => seen
    case _ => true
  }

  /** What any word of the automaton balances, with `q` the state it leads to. */
  ghost predicate Balanced(word: seq<EventKind>, q: Reader) {
    && Count(word, DeviceOpened) == Count(word, DeviceLost) + Flag(!q.Gone?)
    && Count(word, ProducerAwaited) == Count(word, DeviceOpened) - Flag(q.Opening?)
    && Count(word, Reconnecting) + Flag(Seen(q))
       == Count(word, DeviceLost) + Flag(q.Live? || q.Recovering? || q.Clearing? || q.Changing?)
    && Count(word, StreamingStarted) + Flag(q.Clearing? || q.Changing?)
       == Count(word, StallCleared) + Flag(Seen(q))
    && Count(word, StallDetected)
       == Count(word, StallCleared) + LostWhileStalled(word) + Flag(q.Recovering?)
    && (q.Recovering? <==> word != [] && Last(word) == StallDetected)
    && Count(word, FormatChanged) <= Count(word, StallCleared)
  }

  ghost predicate ChangeIsPending(word: seq<EventKind>, q: Reader) {
    q.Clearing? ==> Count(word, FormatChanged) < Count(word, StallCleared)
  }

  /** Reading one more event keeps the balance. */
  lemma {:induction false} OneMoreEvent(word: seq<EventKind>, q: Reader)
    requires word != [] && Balanced(Init(word), q) && ChangeIsPending(Init(word), q)
    requires Read(q, Last(word)) != Stuck
    ensures Balanced(word, Read(q, Last(word))) && ChangeIsPending(word, Read(q, Last(word)))
  {
    var before := Init(word);
    assert |word| >= 2 ==> before != [] && word[|word| - 2] == Last(before);
  }

  lemma {:induction false} WordsBalance(word: seq<EventKind>)
    requires ReadFrom(Gone(false), word) != Stuck
    ensures Balanced(word, ReadFrom(Gone(false), word))
    ensures ChangeIsPending(word, ReadFrom(Gone(false), word))
    decreases |word|
  {
    if word != [] {
      var before, kind := Init(word), Last(word);
      assert before + [kind] == word;
      ReadInTwo(Gone(false), before, [kind]);
      var q := ReadFrom(Gone(false), before);
      assert ReadFrom(q, [kind]) == Read(q, kind);
      WordsBalance(before);
      OneMoreEvent(word, q);
    }
  }

  lemma {:induction false} CountInTwo(a: seq<EventKind>, b: seq<EventKind>, kind: EventKind)
    ensures Count(a + b, kind) == Count(a, kind) + Count(b, kind)
    decreases |b|
  {
    if b == [] {
      assert a + b == a;
    } else {
      assert Init(a + b) == a + Init(b) && Last(a + b) == Last(b);
      CountInTwo(a, Init(b), kind);
    }
  }

  /** A step emits at most three events. */
  lemma {:induction false} CountShort(word: seq<EventKind>, kind: EventKind)
    requires |word| <= 3
    ensures Count(word, kind)
         == Flag(|word| > 0 && word[0] == kind) + Flag(|word| > 1 && word[1] == kind) + Flag(|word| > 2 && word[2] == kind)
  {
    if |word| > 0 {
      var one := Init(word);
      assert Count(word, kind) == Count(one, kind) + Flag(Last(word) == kind);
      if |word| > 1 {
        var two := Init(one);
        assert Count(one, kind) == Count(two, kind) + Flag(Last(one) == kind);
        if |word| > 2 {
          assert Init(two) == [];
          assert Count(two, kind) == Count([], kind) + Flag(Last(two) == kind);
        }
      }
    }
  }

  /** How often `kind` is among the (at most three) events of a step. */
  function Emitted(events: seq<Event>, kind: EventKind): nat {
    Flag(|events| > 0 && events[0].kind == kind)
    + Flag(|events| > 1 && events[1].kind == kind)
    + Flag(|events| > 2 && events[2].kind == kind)
  }

  /** How a step moves the counters that mirror the event log. */
  ghost predicate CountsStep(m: Machine, o: Outcome) {
    && |o.events| <= 3
    && o.machine.stats.reconnects == m.stats.reconnects + Emitted(o.events, Reconnecting)
    && o.machine.stats.stalls == m.stats.stalls + Emitted(o.events, StallDetected)
  }

  ghost predicate CountsLoss(m: Machine, o: Outcome) {
    ErrorCount(o.machine, DeviceGone) == ErrorCount(m, DeviceGone) + Emitted(o.events, DeviceLost)
  }

  lemma {:induction false} RecoveringCounts(m: Machine, a: Answers)
    ensures CountsStep(m, StepRecovering(m, a))
  {
  }

  lemma {:induction false} RecoveringCountsLoss(m: Machine, a: Answers)
    ensures CountsLoss(m, StepRecovering(m, a))
  {
  }

  lemma {:induction false} StreamingCountsStalls(m: Machine, a: Answers)
    ensures var o := StepStreaming(m, a);
      |o.events| <= 3 && o.machine.stats.stalls == m.stats.stalls + Emitted(o.events, StallDetected)
  {
  }

  lemma {:induction false} StreamingCounts(m: Machine, a: Answers)
    ensures CountsStep(m, StepStreaming(m, a))
  {
    StreamingCountsStalls(m, a);
  }

  lemma {:induction false} FrameCountsNoLoss(m: Machine, f: FrameDescriptor, a: Answers)
    ensures CountsLoss(m, TakeFrame(m, f, a))
  {
  }

  lemma {:induction false} StreamingCountsLoss(m: Machine, a: Answers)
    ensures CountsLoss(m, StepStreaming(m, a))
  {
    if a.dequeue.Frame? {
      FrameCountsNoLoss(m, a.dequeue.frame, a);
    }
  }

  lemma {:induction false} AwaitingCounts(m: Machine, a: Answers)
    ensures CountsStep(m, StepAwaitingProducer(m, a))
  {
  }

  lemma {:induction false} AwaitingCountsLoss(m: Machine, a: Answers)
    ensures CountsLoss(m, StepAwaitingProducer(m, a))
  {
  }

  lemma {:induction false} AbsentCounts(m: Machine, a: Answers)
    ensures CountsStep(m, StepDeviceAbsent(m, a)) && CountsLoss(m, StepDeviceAbsent(m, a))
  {
  }

  lemma {:induction false} StepMirrors(m: Machine, a: Answers)
    ensures CountsStep(m, Step(m, a)) && CountsLoss(m, Step(m, a))
  {
    match m.state
    case DeviceAbsent =>
      AbsentCounts(m, a);
    case AwaitingProducer =>
      if m.recovering {
        RecoveringCounts(m, a);
        RecoveringCountsLoss(m, a);
      } else {
        AwaitingCounts(m, a);
        AwaitingCountsLoss(m, a);
      }
    case Streaming =>
      StreamingCounts(m, a);
      StreamingCountsLoss(m, a);
    case _ =>
  }

  lemma {:induction false} AddStep(before: seq<Event>, events: seq<Event>, kind: EventKind)
    requires |events| <= 3
    ensures Count(Kinds(before + events), kind) == Count(Kinds(before), kind) + Emitted(events, kind)
  {
    KindsInTwo(before, events);
    CountInTwo(Kinds(before), Kinds(events), kind);
    CountShort(Kinds(events), kind);
  }

  /** The counters that mirror the event log do. */
  ghost predicate Mirrored(h: History) {
    var m, word := h.machine, Kinds(h.events);
    && m.stats.reconnects == Count(word, Reconnecting)
    && m.stats.stalls == Count(word, StallDetected)
    && ErrorCount(m, DeviceGone) == Count(word, DeviceLost)
  }

  lemma {:induction false} RunIsMirrored(h: History, answers: seq<Answers>)
    requires Mirrored(h)
    ensures Mirrored(Run(h, answers))
    decreases |answers|
  {
    if answers != [] {
      var o := Step(h.machine, answers[0]);
      StepMirrors(h.machine, answers[0]);
      AddStep(h.events, o.events, Reconnecting);
      AddStep(h.events, o.events, StallDetected);
      AddStep(h.events, o.events, DeviceLost);
      RunIsMirrored(Advance(h, answers[0]), answers[1..]);
    }
  }

  /** The balances of the log, with the machine's fields in place of the reader's state. */
  ghost predicate BalancedBy(m: Machine, word: seq<EventKind>) {
    && Count(word, Reconnecting) + Flag(m.hasStreamedBefore)
       == Count(word, DeviceLost) + Flag(m.state == Streaming || m.recovering)
    && Count(word, DeviceOpened) == Count(word, DeviceLost) + Flag(m.state != DeviceAbsent)
    && Count(word, ProducerAwaited) == Count(word, DeviceOpened)
    && Count(word, StreamingStarted) == Count(word, StallCleared) + Flag(m.hasStreamedBefore)
    && Count(word, StallDetected) == Count(word, StallCleared) + LostWhileStalled(word) + Flag(m.recovering)
    && Count(word, FormatChanged) <= Count(word, StallCleared)
  }

  lemma {:induction false} PositionBalances(m: Machine, word: seq<EventKind>)
    requires Consistent(m) && Balanced(word, Position(m))
    ensures BalancedBy(m, word)
  {
  }

  /** The books balance in every reachable state. */
  lemma {:induction false} ExactAccounting(config: DaemonConfig, now: int, answers: seq<Answers>)
    ensures var h := Run(Begin(config, now), answers);
      && Mirrored(h)
      && BalancedBy(h.machine, Kinds(h.events))
      && h.machine.state != Configuring && h.machine.state != Stalled
      && h.machine.stats.captureState
         == match h.machine.state
            case DeviceAbsent => 0
            case AwaitingProducer => 1
            case _ => 3
  {
    LogIsAWord(config, now, answers);
    var h := Run(Begin(config, now), answers);
    WordsBalance(Kinds(h.events));
    PositionBalances(h.machine, Kinds(h.events));
    assert Kinds([]) == [];
    RunIsMirrored(Begin(config, now), answers);
  }
}
