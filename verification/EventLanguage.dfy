/** The language of the event log: for every run the log is a word of a small
    automaton whose state is a function of the machine's, and every word of that
    automaton is the log of some run. */
module EventLanguage {
  import opened Types
  import opened CaptureSpec

  /** A reader of the event log. `seen` says whether streaming ever began. */
  datatype Reader =
    | Gone(seen: bool)
    | Opening(seen: bool)
    | Waiting(seen: bool)
    | Live
    | Recovering
    | Clearing
    | Changing
    | Stuck

  function Read(q: Reader, kind: EventKind): Reader {
    match (q, kind)
    case (Gone(seen), DeviceOpened) => Opening(seen)
    case (Opening(seen), ProducerAwaited) => Waiting(seen)
    case (Waiting(seen), StreamingStarted) => if seen then Stuck else Live
    case (Waiting(seen), Reconnecting) => if seen then Live else Stuck
    case (Live, StallDetected) => Recovering
    case (Live, DeviceLost) => Gone(true)
    case (Recovering, DeviceLost) => Gone(true)
    case (Recovering, StallCleared) => Clearing
    case (Clearing, FormatChanged) => Changing
    case (Clearing, StreamingStarted) => Live
    case (Changing, StreamingStarted) => Live
    case _ => Stuck
  }

  function ReadFrom(q: Reader, word: seq<EventKind>): Reader
    decreases |word|
  {
    if word == [] then q else ReadFrom(Read(q, word[0]), word[1..])
  }

  lemma {:induction false} ReadInTwo(q: Reader, before: seq<EventKind>, after: seq<EventKind>)
    ensures ReadFrom(q, before + after) == ReadFrom(ReadFrom(q, before), after)
    decreases |before|
  {
    if before == [] {
      assert before + after == after;
    } else {
      assert (before + after)[1..] == before[1..] + after;
      ReadInTwo(Read(q, before[0]), before[1..], after);
    }
  }

  function Kinds(events: seq<Event>): (r: seq<EventKind>)
    ensures |r| == |events|
    ensures forall i :: 0 <= i < |r| ==> r[i] == events[i].kind
  {
    seq(|events|, i requires 0 <= i < |events| => events[i].kind)
  }

  /** The reader's state, read off the machine. */
  function Position(m: Machine): Reader {
    match m.state
    case DeviceAbsent => Gone(m.hasStreamedBefore)
    case AwaitingProducer => if m.recovering then Recovering else Waiting(m.hasStreamedBefore)
    case Streaming => Live
    case _ => Stuck
  }

  ghost predicate Consistent(m: Machine) {
    && Position(m) != Stuck
    && (m.recovering ==> m.state == AwaitingProducer)
    && (m.recovering || m.state == Streaming ==> m.hasStreamedBefore)
    && m.stats.captureState == m.state.Gauge()
  }

  /** A step emits at most three events. */
  lemma {:induction false} ReadShort(q: Reader, word: seq<EventKind>)
    requires |word| <= 3
    ensures ReadFrom(q, word)
         == match |word|
            case 0 => q
            case 1 => Read(q, word[0])
            case 2 => Read(Read(q, word[0]), word[1])
            case _ => Read(Read(Read(q, word[0]), word[1]), word[2])
  {
    if |word| >= 1 {
      assert ReadFrom(q, word) == ReadFrom(Read(q, word[0]), word[1..]);
      if |word| >= 2 {
        assert ReadFrom(Read(q, word[0]), word[1..]) == ReadFrom(Read(Read(q, word[0]), word[1]), word[1..][1..]);
      }
    }
  }

  lemma {:induction false} RecoveringIsRead(m: Machine, a: Answers)
    requires Consistent(m) && m.recovering
    ensures var o := StepRecovering(m, a);
      Consistent(o.machine) && ReadFrom(Recovering, Kinds(o.events)) == Position(o.machine)
  {
    ReadShort(Recovering, Kinds(StepRecovering(m, a).events));
  }

  lemma {:induction false} AwaitingIsRead(m: Machine, a: Answers)
    requires Consistent(m) && m.state == AwaitingProducer && !m.recovering
    ensures var o := StepAwaitingProducer(m, a);
      Consistent(o.machine) && ReadFrom(Position(m), Kinds(o.events)) == Position(o.machine)
  {
    ReadShort(Position(m), Kinds(StepAwaitingProducer(m, a).events));
  }

  lemma {:induction false} StreamingIsRead(m: Machine, a: Answers)
    requires Consistent(m) && m.state == Streaming
    ensures var o := StepStreaming(m, a);
      Consistent(o.machine) && ReadFrom(Live, Kinds(o.events)) == Position(o.machine)
  {
    ReadShort(Live, Kinds(StepStreaming(m, a).events));
  }

  /** Every step moves the reader along the events it emits. */
  lemma {:induction false} StepIsRead(m: Machine, a: Answers)
    requires Consistent(m)
    ensures var o := Step(m, a);
      Consistent(o.machine) && ReadFrom(Position(m), Kinds(o.events)) == Position(o.machine)
  {
    match m.state
    case DeviceAbsent =>
      ReadShort(Position(m), Kinds(Step(m, a).events));
    case AwaitingProducer =>
      if m.recovering {
        RecoveringIsRead(m, a);
      } else {
        AwaitingIsRead(m, a);
      }
    case Streaming =>
      StreamingIsRead(m, a);
  }

  /** The event log of `h` has been read up to the position of its machine. */
  ghost predicate Told(h: History) {
    Consistent(h.machine) && ReadFrom(Gone(false), Kinds(h.events)) == Position(h.machine)
  }

  lemma {:induction false} KindsInTwo(a: seq<Event>, b: seq<Event>)
    ensures Kinds(a + b) == Kinds(a) + Kinds(b)
  {
  }

  lemma {:induction false} RunIsTold(h: History, answers: seq<Answers>)
    requires Told(h)
    ensures Told(Run(h, answers))
    decreases |answers|
  {
    if answers != [] {
      var o := Step(h.machine, answers[0]);
      StepIsRead(h.machine, answers[0]);
      KindsInTwo(h.events, o.events);
      ReadInTwo(Gone(false), Kinds(h.events), Kinds(o.events));
      RunIsTold(Advance(h, answers[0]), answers[1..]);
    }
  }

  /** Every run's event log is a word of the automaton, and the automaton ends in the
      state that the machine's fields name. */
  lemma {:induction false} LogIsAWord(config: DaemonConfig, now: int, answers: seq<Answers>)
    ensures var h := Run(Begin(config, now), answers);
      ReadFrom(Gone(false), Kinds(h.events)) == Position(h.machine) && Consistent(h.machine)
  {
    assert Kinds([]) == [];
    RunIsTold(Begin(config, now), answers);
  }

  // ---- The converse: every word is some run's log -------------------------------

  /** The reader's states between steps. */
  predicate Resting(q: Reader) {
    q.Gone? || q.Waiting? || q.Live? || q.Recovering?
  }

  lemma {:induction false} StuckForGood(word: seq<EventKind>)
    ensures ReadFrom(Stuck, word) == Stuck
    decreases |word|
  {
    if word != [] {
      StuckForGood(word[1..]);
    }
  }

  /** The letters that one visible move of the machine emits next. */
  function NextMove(q: Reader, word: seq<EventKind>): (n: nat)
    requires word != []
    ensures 1 <= n <= 3
  {
    match q
    case Gone(_) => 2
    case Recovering =>
      if word[0] == DeviceLost then 1
      else if |word| > 1 && word[1] == FormatChanged then 3
      else 2
    case _ => 1
  }

  lemma {:induction false} NextMoveSplits(q: Reader, word: seq<EventKind>)
    requires Resting(q) && word != [] && Resting(ReadFrom(q, word))
    ensures var n := NextMove(q, word);
      n <= |word| && Resting(ReadFrom(q, word[..n])) && ReadFrom(ReadFrom(q, word[..n]), word[n..]) == ReadFrom(q, word)
  {
    var first := Read(q, word[0]);
    StuckForGood(word[1..]);
    if |word| > 1 {
      var second := Read(first, word[1]);
      assert ReadFrom(first, word[1..]) == ReadFrom(second, word[1..][1..]);
      StuckForGood(word[1..][1..]);
      if |word| > 2 {
        StuckForGood(word[1..][1..][1..]);
      }
    }
    if |word| <= 3 {
      ReadShort(q, word);
    }
    var n := NextMove(q, word);
    ReadShort(q, word[..n]);
    assert word[..n] + word[n..] == word;
    ReadInTwo(q, word[..n], word[n..]);
  }

  function AnotherFormat(f: StreamFormat): (g: StreamFormat)
    ensures g != f
  {
    f.(width := if f.width == 0 then 1 else 0)
  }

  /** When the next attempt can be made, the clock reading `now`. */
  function WhenDue(m: Machine, now: int): (t: int)
    ensures t >= now && t >= m.nextAttemptAt
  {
    if now < m.nextAttemptAt then m.nextAttemptAt else now
  }

  /** Answers, under a clock at `now`, that make the machine emit exactly `letters`. A
      stall takes two steps: a frame of the right size, then silence for as long as the
      threshold. */
  function Prompt(m: Machine, now: int, letters: seq<EventKind>): seq<Answers>
    requires letters != []
  {
    var t := WhenDue(m, now);
    var format := if |letters| == 3 then AnotherFormat(m.currentFormat) else m.currentFormat;
    var calm := Answers(t, t, 0, Opened, Known(format), Started, Timeout);
    if letters[0] == StallDetected then
      [calm.(dequeue := Frame(FrameDescriptor(0, m.currentFormat.sizeImage, t))),
       calm.(first := t + m.config.stallThreshold, second := t + m.config.stallThreshold)]
    else if letters[0] == DeviceLost then
      [calm.(open := Absent, dequeue := Lost)]
    else
      [calm]
  }

  lemma {:induction false} PromptIsPaced(h: History, now: int, letters: seq<EventKind>)
    requires letters != [] && (letters[0] == StallDetected ==> h.machine.state == Streaming)
    ensures Paced(h, now, Prompt(h.machine, now, letters))
  {
    var answers := Prompt(h.machine, now, letters);
    PacedOnce(h, now, answers[0]);
    if letters[0] == StallDetected {
      assert Step(h.machine, answers[0]) == StepStreaming(h.machine, answers[0]);
      PacedOnce(Advance(h, answers[0]), Wakes(h.machine, answers[0]), answers[1]);
      PacedInTwo(h, now, [answers[0]], [answers[1]]);
      assert Run(h, [answers[0]]) == Run(Advance(h, answers[0]), []);
      assert [answers[0]] + [answers[1]] == answers;
    } else {
      assert answers == [answers[0]];
    }
  }

  lemma {:induction false} ReleaseOnPrompt(h: History, now: int)
    requires Consistent(h.machine) && h.machine.state == Streaming
    ensures var r := Run(h, Prompt(h.machine, now, [StallDetected]));
      r.events == h.events + [PlainEvent(StallDetected)] && Consistent(r.machine) && Position(r.machine) == Recovering
  {
    var answers := Prompt(h.machine, now, [StallDetected]);
    var seen := Advance(h, answers[0]);
    StreamingIsRead(h.machine, answers[0]);
    assert seen.machine.state == Streaming && seen.machine.haveLastFrame;
    assert seen.machine.lastFrameAt == WhenDue(h.machine, now);
    assert seen.machine.config == h.machine.config && seen.events == h.events;
    StreamingIsRead(seen.machine, answers[1]);
    assert answers[1..][0] == answers[1] && answers[1..][1..] == [];
    assert Run(h, answers) == Run(seen, answers[1..]);
    assert Run(seen, answers[1..]) == Run(Advance(seen, answers[1]), []);
  }

  lemma {:induction false} RecoveryOnPrompt(m: Machine, now: int, letters: seq<EventKind>)
    requires Consistent(m) && m.recovering
    requires letters == [DeviceLost] || letters == [StallCleared, StreamingStarted]
          || letters == [StallCleared, FormatChanged, StreamingStarted]
    ensures Kinds(Step(m, Prompt(m, now, letters)[0]).events) == letters
  {
    var o := Step(m, Prompt(m, now, letters)[0]);
    assert o == StepRecovering(m, Prompt(m, now, letters)[0]);
    assert |o.events| == |letters|;
  }

  lemma {:induction false} OneStepOnPrompt(h: History, now: int, letters: seq<EventKind>)
    requires Consistent(h.machine) && letters != [] && letters[0] != StallDetected
    requires |letters| <= 3 && Resting(ReadFrom(Position(h.machine), letters))
    requires |letters| == NextMove(Position(h.machine), letters)
    ensures var o := Step(h.machine, Prompt(h.machine, now, letters)[0]);
      Kinds(o.events) == letters
  {
    ReadShort(Position(h.machine), letters);
    if h.machine.recovering {
      RecoveryOnPrompt(h.machine, now, letters);
    } else {
      var o := Step(h.machine, Prompt(h.machine, now, letters)[0]);
      assert |letters| == |o.events|;
    }
  }

  lemma {:induction false} MoveOnPrompt(h: History, now: int, letters: seq<EventKind>)
    requires Consistent(h.machine) && letters != []
    requires |letters| <= 3 && Resting(ReadFrom(Position(h.machine), letters))
    requires |letters| == NextMove(Position(h.machine), letters)
    ensures var r := Run(h, Prompt(h.machine, now, letters));
      && Kinds(r.events) == Kinds(h.events) + letters
      && Consistent(r.machine)
      && Position(r.machine) == ReadFrom(Position(h.machine), letters)
  {
    ReadShort(Position(h.machine), letters);
    if letters[0] == StallDetected {
      assert letters == [StallDetected];
      ReleaseOnPrompt(h, now);
      KindsInTwo(h.events, [PlainEvent(StallDetected)]);
      assert Kinds([PlainEvent(StallDetected)]) == letters;
    } else {
      OneStepOnPrompt(h, now, letters);
      var answers := Prompt(h.machine, now, letters);
      var o := Step(h.machine, answers[0]);
      StepIsRead(h.machine, answers[0]);
      KindsInTwo(h.events, o.events);
      assert answers[1..] == [];
      assert Run(h, answers) == Run(Advance(h, answers[0]), []);
    }
  }

  /** The first move of an allowed continuation, made by a machine whose caller sleeps out
      the waits; the rest is allowed after it. */
  lemma {:induction false} FirstMove(h: History, now: int, word: seq<EventKind>)
      returns (answers: seq<Answers>, rest: seq<EventKind>)
    requires Consistent(h.machine) && word != [] && Resting(ReadFrom(Position(h.machine), word))
    ensures |rest| < |word| && Paced(h, now, answers)
    ensures Consistent(Run(h, answers).machine) && Resting(ReadFrom(Position(Run(h, answers).machine), rest))
    ensures Kinds(Run(h, answers).events) + rest == Kinds(h.events) + word
  {
    var q := Position(h.machine);
    NextMoveSplits(q, word);
    var n := NextMove(q, word);
    assert NextMove(q, word[..n]) == n;
    MoveOnPrompt(h, now, word[..n]);
    ReadShort(q, word[..n]);
    PromptIsPaced(h, now, word[..n]);
    answers, rest := Prompt(h.machine, now, word[..n]), word[n..];
    assert word[..n] + rest == word;
    Joined(Kinds(h.events), word[..n], rest);
  }

  /** From any resting machine, any continuation the automaton allows can happen. */
  lemma {:induction false} Realize(h: History, now: int, word: seq<EventKind>) returns (answers: seq<Answers>)
    requires Consistent(h.machine) && Resting(ReadFrom(Position(h.machine), word))
    ensures Kinds(Run(h, answers).events) == Kinds(h.events) + word && Paced(h, now, answers)
    decreases |word|
  {
    if word == [] {
      answers := [];
    } else {
      var first, rest := FirstMove(h, now, word);
      var later := Realize(Run(h, first), WakesAfter(h, now, first), rest);
      answers := first + later;
      RunInTwo(h, first, later);
      PacedInTwo(h, now, first, later);
    }
  }

  /** The automaton is exact: its resting words are precisely the event logs of runs under
      a clock that never runs backwards, with every wait slept out. */
  lemma {:induction false} WordsAreExactlyTheLogs(config: DaemonConfig, now: int, word: seq<EventKind>)
    ensures Resting(ReadFrom(Gone(false), word))
      <==> exists answers ::
             Paced(Begin(config, now), now, answers) && Kinds(Run(Begin(config, now), answers).events) == word
  {
    var h := Begin(config, now);
    assert Kinds([]) == [];
    if Resting(ReadFrom(Gone(false), word)) {
      var answers := Realize(h, now, word);
      assert Kinds(h.events) + word == word;
    }
    forall answers | Kinds(Run(h, answers).events) == word
      ensures Resting(ReadFrom(Gone(false), word))
    {
      LogIsAWord(config, now, answers);
    }
  }

  // ---- The reason of a loss -------------------------------------------------------

  lemma {:induction false} StepGivesNoReason(m: Machine, a: Answers, e: Event)
    requires e in Step(m, a).events
    ensures e.reason == None
  {
    match m.state
    case AwaitingProducer =>
      if m.recovering {
        assert Step(m, a) == StepRecovering(m, a);
      } else {
        assert Step(m, a) == StepAwaitingProducer(m, a);
      }
    case Streaming => assert Step(m, a) == StepStreaming(m, a);
    case _ =>
  }

  /** No event of any run carries a reason, that of a lost device included. */
  lemma {:induction false} NoReasonIsGiven(h: History, answers: seq<Answers>)
    requires forall e :: e in h.events ==> e.reason == None
    ensures forall e :: e in Run(h, answers).events ==> e.reason == None
    decreases |answers|
  {
    if answers != [] {
      forall e | e in Step(h.machine, answers[0]).events
        ensures e.reason == None
      {
        StepGivesNoReason(h.machine, answers[0], e);
      }
      NoReasonIsGiven(Advance(h, answers[0]), answers[1..]);
    }
  }
}
