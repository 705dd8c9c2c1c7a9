/** Format tracking and the reporting of format changes. */
module Formats {
  import opened Types
  import opened CaptureSpec
  import opened EventLanguage

  /** What the call log says about formats: the one delivered last, and the one that
      was current at the last successful start. */
  datatype FormatBook = FormatBook(latest: StreamFormat, published: Option<StreamFormat>)

  function Note(b: FormatBook, call: Call): FormatBook {
    match call
    case QueryCall(Known(format)) => b.(latest := format)
    case StartCall(_, Started) => b.(published := Some(b.latest))
    case _ => b
  }

  function NoteAll(b: FormatBook, calls: seq<Call>): FormatBook
    decreases |calls|
  {
    if calls == [] then b else NoteAll(Note(b, calls[0]), calls[1..])
  }

  lemma {:induction false} NoteInTwo(b: FormatBook, before: seq<Call>, after: seq<Call>)
    ensures NoteAll(b, before + after) == NoteAll(NoteAll(b, before), after)
    decreases |before|
  {
    if before == [] {
      assert before + after == after;
    } else {
      assert (before + after)[1..] == before[1..] + after;
      NoteInTwo(Note(b, before[0]), before[1..], after);
    }
  }

  lemma {:induction false} NoteShort(b: FormatBook, calls: seq<Call>)
    requires |calls| <= 4
    ensures NoteAll(b, calls)
         == match |calls|
            case 0 => b
            case 1 => Note(b, calls[0])
            case 2 => Note(Note(b, calls[0]), calls[1])
            case 3 => Note(Note(Note(b, calls[0]), calls[1]), calls[2])
            case _ => Note(Note(Note(Note(b, calls[0]), calls[1]), calls[2]), calls[3])
  {
    if |calls| >= 1 {
      var one := calls[1..];
      assert NoteAll(b, calls) == NoteAll(Note(b, calls[0]), one);
      if |calls| >= 2 {
        var two := one[1..];
        assert NoteAll(Note(b, calls[0]), one) == NoteAll(Note(Note(b, calls[0]), calls[1]), two);
        if |calls| >= 3 {
          var three := two[1..];
          var r := Note(Note(Note(b, calls[0]), calls[1]), calls[2]);
          assert NoteAll(Note(Note(b, calls[0]), calls[1]), two) == NoteAll(r, three);
        }
      }
    }
  }

  function Book(m: Machine): FormatBook {
    FormatBook(m.currentFormat, m.stats.streamInfo)
  }

  ghost predicate Booked(m: Machine, o: Outcome) {
    |o.calls| <= 4 && NoteAll(Book(m), o.calls) == Book(o.machine)
  }

  lemma {:induction false} RecoveringIsBooked(m: Machine, a: Answers)
    ensures Booked(m, StepRecovering(m, a))
  {
    NoteShort(Book(m), StepRecovering(m, a).calls);
  }

  lemma {:induction false} AwaitingIsBooked(m: Machine, a: Answers)
    ensures Booked(m, StepAwaitingProducer(m, a))
  {
    NoteShort(Book(m), StepAwaitingProducer(m, a).calls);
  }

  lemma {:induction false} StreamingIsBooked(m: Machine, a: Answers)
    ensures Booked(m, StepStreaming(m, a))
  {
    NoteShort(Book(m), StepStreaming(m, a).calls);
  }

  lemma {:induction false} StepIsBooked(m: Machine, a: Answers)
    ensures Booked(m, Step(m, a))
  {
    match m.state
    case DeviceAbsent =>
      NoteShort(Book(m), StepDeviceAbsent(m, a).calls);
    case AwaitingProducer =>
      if m.recovering {
        RecoveringIsBooked(m, a);
      } else {
        AwaitingIsBooked(m, a);
      }
    case Streaming =>
      StreamingIsBooked(m, a);
    case _ =>
      NoteShort(Book(m), Step(m, a).calls);
  }

  lemma {:induction false} StreamingPublishesCurrent(m: Machine, a: Answers)
    requires m.state == Streaming ==> m.stats.streamInfo == Some(m.currentFormat)
    ensures var n := Step(m, a).machine; n.state == Streaming ==> n.stats.streamInfo == Some(n.currentFormat)
  {
    match m.state
    case AwaitingProducer =>
      if m.recovering {
        assert Step(m, a) == StepRecovering(m, a);
      } else {
        assert Step(m, a) == StepAwaitingProducer(m, a);
      }
    case Streaming => assert Step(m, a) == StepStreaming(m, a);
    case _ =>
  }

  const BLANK := FormatBook(UNSET_FORMAT, None)

  ghost predicate Tracked(h: History) {
    && Book(h.machine) == NoteAll(BLANK, h.calls)
    && (h.machine.state == Streaming ==> h.machine.stats.streamInfo == Some(h.machine.currentFormat))
  }

  lemma {:induction false} RunIsTracked(h: History, answers: seq<Answers>)
    requires Tracked(h)
    ensures Tracked(Run(h, answers))
    decreases |answers|
  {
    if answers != [] {
      StepIsBooked(h.machine, answers[0]);
      StreamingPublishesCurrent(h.machine, answers[0]);
      NoteInTwo(BLANK, h.calls, Step(h.machine, answers[0]).calls);
      RunIsTracked(Advance(h, answers[0]), answers[1..]);
    }
  }

  /** In every reachable state the current format is the one of the latest query that
      delivered one, the published stream info is the one of the latest successful
      start, and while streaming the two agree. */
  lemma {:induction false} FormatsFollowTheCalls(config: DaemonConfig, now: int, answers: seq<Answers>)
    ensures Tracked(Run(Begin(config, now), answers))
  {
    RunIsTracked(Begin(config, now), answers);
  }

  // ---- Reporting ----------------------------------------------------------------

  /** The step ends a recovery by starting to stream again. */
  ghost predicate Reacquires(m: Machine, a: Answers) {
    m.state == AwaitingProducer && m.recovering && Step(m, a).machine.state == Streaming
  }

  ghost predicate ReportsChange(m: Machine, a: Answers) {
    exists e :: e in Step(m, a).events && e.kind == FormatChanged
  }

  ghost predicate PublishedDiffers(m: Machine, a: Answers) {
    m.stats.streamInfo != Step(m, a).machine.stats.streamInfo
  }

  /** A reacquisition reports a change exactly if the new format differs from the one
      of the latest query, and the report carries exactly those two formats. */
  lemma {:induction false} ReportComparesQueries(m: Machine, a: Answers)
    requires Reacquires(m, a)
    ensures var n := Step(m, a).machine;
      && a.query == Known(n.currentFormat)
      && n.stats.streamInfo == Some(n.currentFormat)
      && (ReportsChange(m, a) <==> n.currentFormat != m.currentFormat)
      && forall e :: e in Step(m, a).events && e.kind == FormatChanged ==>
           e == Event(FormatChanged, n.currentFormat, m.currentFormat, None)
  {
    assert Step(m, a) == StepRecovering(m, a);
    var format, previous := a.query.format, m.currentFormat;
    var change := Event(FormatChanged, format, previous, None);
    assert Step(m, a).events == Reacquired(format, previous);
    assert format != previous ==> Reacquired(format, previous)[1] == change;
  }

  /** No other step reports a format change. */
  lemma {:induction false} OnlyReacquisitionsReport(m: Machine, a: Answers)
    requires Consistent(m) && ReportsChange(m, a)
    ensures Reacquires(m, a)
  {
    if m.state == AwaitingProducer && m.recovering {
      assert Step(m, a) == StepRecovering(m, a);
    }
  }

  /** A start is announced with the format it publishes, on the first start as on a
      reacquisition. */
  lemma {:induction false} StartsAnnounceThePublished(m: Machine, a: Answers, e: Event)
    requires Consistent(m) && e in Step(m, a).events && e.kind == StreamingStarted
    ensures Some(e.format) == Step(m, a).machine.stats.streamInfo && a.query == Known(e.format)
  {
    if m.state == AwaitingProducer {
      if m.recovering {
        assert Step(m, a) == StepRecovering(m, a);
      } else {
        assert Step(m, a) == StepAwaitingProducer(m, a);
      }
    }
  }

  lemma {:induction false} StartsStream(m: Machine, a: Answers, e: Event)
    requires Consistent(m) && e in Step(m, a).events && e.kind == StreamingStarted
    ensures Step(m, a).machine.state == Streaming
  {
    if m.state == AwaitingProducer {
      if m.recovering {
        assert Step(m, a) == StepRecovering(m, a);
      } else {
        assert Step(m, a) == StepAwaitingProducer(m, a);
      }
    }
  }

  /** In every run the formats that events carry are those of the call log: a change names
      the format of the latest query before it and the one just learnt, and any start is
      announced with the format it publishes. */
  lemma {:induction false} EventsNameTheQueries(
      config: DaemonConfig, now: int, before: seq<Answers>, a: Answers, e: Event)
    requires var h := Run(Begin(config, now), before); e in Step(h.machine, a).events
    requires e.kind == FormatChanged || e.kind == StreamingStarted
    ensures var h := Run(Begin(config, now), before);
      var next := NoteAll(BLANK, Advance(h, a).calls);
      && a.query == Known(e.format) && next == FormatBook(e.format, Some(e.format))
      && (e.kind == FormatChanged ==>
            e.previousFormat == NoteAll(BLANK, h.calls).latest && e.previousFormat != e.format)
  {
    var h := Run(Begin(config, now), before);
    LogIsAWord(config, now, before);
    RunIsTracked(Begin(config, now), before);
    RunIsTracked(h, [a]);
    assert Run(h, [a]) == Run(Advance(h, a), []);
    if e.kind == FormatChanged {
      assert ReportsChange(h.machine, a);
      OnlyReacquisitionsReport(h.machine, a);
      ReportComparesQueries(h.machine, a);
    } else {
      StartsAnnounceThePublished(h.machine, a, e);
      StartsStream(h.machine, a, e);
    }
  }

  /** An answer to the next attempt, under a clock at `now`, that starts streaming. */
  function Reacquisition(m: Machine, now: int, format: StreamFormat): Answers {
    var t := WhenDue(m, now);
    Answers(t, t, 0, Opened, Known(format), Started, Timeout)
  }

  /** The report is faithful to the published stream info, whatever comes back and
      whenever, exactly if the latest query delivered what is still published. */
  lemma {:induction false} FaithfulIff(m: Machine, now: int)
    requires m.state == AwaitingProducer && m.recovering && m.stats.streamInfo.Some?
    ensures m.stats.streamInfo == Some(m.currentFormat)
      <==> forall a :: InOrder(now, a) && Reacquires(m, a) ==> (ReportsChange(m, a) <==> PublishedDiffers(m, a))
  {
    if m.stats.streamInfo == Some(m.currentFormat) {
      forall a | Reacquires(m, a)
        ensures ReportsChange(m, a) <==> PublishedDiffers(m, a)
      {
        ReportComparesQueries(m, a);
      }
    } else {
      var a := Reacquisition(m, now, m.currentFormat);
      assert InOrder(now, a) && Reacquires(m, a);
      ReportComparesQueries(m, a);
      assert !ReportsChange(m, a) && PublishedDiffers(m, a);
    }
  }

  ghost predicate NoStartFails(calls: seq<Call>) {
    forall i :: 0 <= i < |calls| && calls[i].StartCall? ==> calls[i].startResult != BufferError
  }

  /** A stretch of recovery in which no start fails. */
  ghost predicate CleanRecovery(h: History, answers: seq<Answers>)
    decreases |answers|
  {
    && h.machine.state == AwaitingProducer && h.machine.recovering
    && (answers != [] ==>
          && NoStartFails(Step(h.machine, answers[0]).calls)
          && CleanRecovery(Advance(h, answers[0]), answers[1..]))
  }

  lemma {:induction false} FailedStartIsCalled(m: Machine, a: Answers)
    requires a.start == BufferError
    ensures a.first >= m.nextAttemptAt && a.open == Opened && a.query.Known? ==> !NoStartFails(StepRecovering(m, a).calls)
  {
    var calls := StepRecovering(m, a).calls;
    if |calls| == 4 {
      assert calls[2] == StartCall(m.config.bufferCount, BufferError);
    }
  }

  lemma {:induction false} CleanStepKeepsFormat(m: Machine, a: Answers)
    requires m.state == AwaitingProducer && m.recovering
    requires var n := Step(m, a).machine; n.state == AwaitingProducer && n.recovering
    requires NoStartFails(Step(m, a).calls)
    ensures Book(Step(m, a).machine) == Book(m)
  {
    var o := StepRecovering(m, a);
    assert Step(m, a) == o;
    if a.start == BufferError {
      FailedStartIsCalled(m, a);
    }
  }

  lemma {:induction false} CleanRecoveryKeepsFormat(h: History, answers: seq<Answers>)
    requires CleanRecovery(h, answers)
    ensures Book(Run(h, answers).machine) == Book(h.machine)
    ensures Run(h, answers).machine.state == AwaitingProducer && Run(h, answers).machine.recovering
    decreases |answers|
  {
    if answers != [] {
      assert CleanRecovery(Advance(h, answers[0]), answers[1..]);
      CleanStepKeepsFormat(h.machine, answers[0]);
      CleanRecoveryKeepsFormat(Advance(h, answers[0]), answers[1..]);
    }
  }

  lemma {:induction false} ReleaseKeepsFormat(m: Machine, a: Answers)
    requires m.state == Streaming && Step(m, a).machine.recovering && !m.recovering
    ensures Book(Step(m, a).machine) == Book(m)
  {
    assert Step(m, a) == StepStreaming(m, a);
  }

  /** If no start fails between a release and the reacquisition, a format change is
      reported exactly if the published stream info differs before and after. */
  lemma {:induction false} ChangeReportedIffPublishedDiffers(
      config: DaemonConfig, now: int, before: seq<Answers>, release: Answers, waiting: seq<Answers>, back: Answers)
    requires var s := Run(Begin(config, now), before);
      && s.machine.state == Streaming
      && CleanRecovery(Advance(s, release), waiting)
      && Reacquires(Run(Advance(s, release), waiting).machine, back)
    ensures var s := Run(Begin(config, now), before).machine;
      var m := Run(Advance(Run(Begin(config, now), before), release), waiting).machine;
      && (ReportsChange(m, back) <==> s.stats.streamInfo != Step(m, back).machine.stats.streamInfo)
      && forall e :: e in Step(m, back).events && e.kind == FormatChanged ==>
           Some(e.previousFormat) == s.stats.streamInfo && Some(e.format) == Step(m, back).machine.stats.streamInfo
  {
    var s := Run(Begin(config, now), before);
    RunIsTracked(Begin(config, now), before);
    LogIsAWord(config, now, before);
    ReleaseKeepsFormat(s.machine, release);
    CleanRecoveryKeepsFormat(Advance(s, release), waiting);
    ReportComparesQueries(Run(Advance(s, release), waiting).machine, back);
  }

  /** A step that starts nothing and asks nothing leaves the formats alone. */
  lemma {:induction false} StreamingStepKeepsFormat(m: Machine, a: Answers)
    requires m.state == Streaming
    ensures Book(Step(m, a).machine) == Book(m) && Step(m, a).machine.config == m.config
  {
    assert Step(m, a) == StepStreaming(m, a);
  }

  /** A probe that learns another format and then fails to start. */
  function FailedProbe(m: Machine, now: int): Answers {
    Reacquisition(m, now, AnotherFormat(m.currentFormat)).(start := BufferError)
  }

  lemma {:induction false} FailedProbeForgets(m: Machine, now: int)
    requires m.state == AwaitingProducer && m.recovering
    ensures InOrder(now, FailedProbe(m, now))
    ensures var n := Step(m, FailedProbe(m, now)).machine;
      && n.state == AwaitingProducer && n.recovering
      && n.currentFormat == AnotherFormat(m.currentFormat) && n.stats.streamInfo == m.stats.streamInfo
  {
    assert Step(m, FailedProbe(m, now)) == StepRecovering(m, FailedProbe(m, now));
  }

  lemma {:induction false} PromptedReleaseKeepsFormat(h: History, now: int)
    requires Consistent(h.machine) && h.machine.state == Streaming
    ensures Book(Run(h, Prompt(h.machine, now, [StallDetected])).machine) == Book(h.machine)
  {
    var release := Prompt(h.machine, now, [StallDetected]);
    var seen := Advance(h, release[0]);
    StreamingStepKeepsFormat(h.machine, release[0]);
    assert seen.machine.state == Streaming by {
      assert Step(h.machine, release[0]) == StepStreaming(h.machine, release[0]);
    }
    StreamingStepKeepsFormat(seen.machine, release[1]);
    assert release[1..][0] == release[1] && release[1..][1..] == [];
    assert Run(h, release) == Run(seen, release[1..]);
    assert Run(seen, release[1..]) == Run(Advance(seen, release[1]), []);
  }

  /** Some run streams. */
  lemma {:induction false} ReachStreaming(config: DaemonConfig, now: int) returns (answers: seq<Answers>)
    ensures Paced(Begin(config, now), now, answers)
    ensures var m := Run(Begin(config, now), answers).machine;
      Consistent(m) && m.state == Streaming && m.stats.streamInfo == Some(m.currentFormat)
  {
    var h0 := Begin(config, now);
    assert Kinds([]) == [];
    var word := [DeviceOpened, ProducerAwaited, StreamingStarted];
    ReadShort(Gone(false), word);
    answers := Realize(h0, now, word);
    LogIsAWord(config, now, answers);
    RunIsTracked(h0, answers);
    assert Kinds(Run(h0, answers).events) == word;
  }

  /** Some run is in recovery with the formats still agreeing. */
  lemma {:induction false} ReachRecovery(config: DaemonConfig, now: int) returns (answers: seq<Answers>)
    ensures Paced(Begin(config, now), now, answers)
    ensures var m := Run(Begin(config, now), answers).machine;
      m.state == AwaitingProducer && m.recovering && m.stats.streamInfo == Some(m.currentFormat)
  {
    var h0 := Begin(config, now);
    var toLive := ReachStreaming(config, now);
    var live, later := Run(h0, toLive), WakesAfter(h0, now, toLive);
    var release := Prompt(live.machine, later, [StallDetected]);
    ReleaseOnPrompt(live, later);
    PromptedReleaseKeepsFormat(live, later);
    PromptIsPaced(live, later, [StallDetected]);
    RunInTwo(h0, toLive, release);
    PacedInTwo(h0, now, toLive, release);
    answers := toLive + release;
  }

  /** The side condition is needed: some run, with every wait slept out, publishes a new
      format on a reacquisition without reporting any change, because a start failed in
      between. */
  lemma {:induction false} UnreportedChangeHappens(config: DaemonConfig, now: int)
    ensures exists answers, back ::
      && Paced(Begin(config, now), now, answers + [back])
      && var m := Run(Begin(config, now), answers).machine;
         Reacquires(m, back) && !ReportsChange(m, back) && PublishedDiffers(m, back)
  {
    var h0 := Begin(config, now);
    var toRecovery := ReachRecovery(config, now);
    var agreed, later := Run(h0, toRecovery), WakesAfter(h0, now, toRecovery);
    var probe := FailedProbe(agreed.machine, later);
    FailedProbeForgets(agreed.machine, later);
    PacedOnce(agreed, later, probe);
    PacedInTwo(h0, now, toRecovery, [probe]);
    var answers := toRecovery + [probe];
    RunInTwo(h0, toRecovery, [probe]);
    assert Run(agreed, [probe]) == Run(Advance(agreed, probe), []);
    var stale := Advance(agreed, probe);
    var wakes := WakesAfter(h0, now, answers);
    var back := Reacquisition(stale.machine, wakes, stale.machine.currentFormat);
    PacedOnce(stale, wakes, back);
    PacedInTwo(h0, now, answers, [back]);
    assert Reacquires(stale.machine, back);
    ReportComparesQueries(stale.machine, back);
    assert Run(h0, answers).machine == stale.machine;
  }
}
