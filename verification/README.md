# A verified model of the hamstercam capture daemon

hamstercam watches a V4L2 capture device, keeps it streaming across absent producers,
stalls and lost devices, exports metrics, and logs its state changes as JSON lines. A
second program reads ffmpeg's progress stream and exports that. This project models the
logic of both in Dafny and proves what it promises over whole runs.

`dafny verify dfyconfig.toml` checks everything.

## What is modelled

**The capture state machine over its device** (the main part).

- `CaptureSpec.dfy` gives one step as a function of the machine's state and of what the
  world answered during the step: clock readings and one arbitrary answer per kind of
  device call. A run is any finite sequence of such answers; there is no bound and no
  assumption on the device. `ClockRuns` says that the steady clock does not run backwards
  in a run, `Paced` also that its caller sleeps out every recommended wait; runs that are
  claimed to exist are paced.
- `CaptureStateMachine.dfy`, `CaptureStats.dfy`, `Backoff.dfy`, `Clock.dfy` and
  `V4l2CaptureDevice.dfy` are the objects of the daemon, with the fields and the branches of the source. Every
  method of the state machine is proved to take exactly the step of `CaptureSpec` for the
  answers it got: same new state, events, device calls and recommended wait. The device
  runs over a kernel with arbitrary answers, all of which the kernel records; the contracts
  of the device say what each answer of the device means in terms of the answers of the
  kernel. What the state machine proves about its own calls is what meets the
  preconditions of the device. `Daemon.dfy` is the driving loop up to the stop request:
  what it leaves behind is a paced run of `CaptureSpec`, so every theorem about runs holds
  of it, and its log is the text that the theorems about the log read back.
- `EventLanguage.dfy`, `Accounting.dfy`, `Tallies.dfy`, `DeviceProtocol.dfy`, `Formats.dfy`,
  `RateDetector.dfy`, `Sessions.dfy`, `Timing.dfy` and `Waits.dfy` prove the theorems about
  all runs.

**Histogram and its rendering** (`Histogram.dfy`): bucket counts against counting the raw
observations, up to the rendered cumulative lines (Prometheus text format 0.0.4,
"Histograms and summaries").

**The progress parser** (`ProgressSpec.dfy`, `ProgressLaws.dfy`, `ProgressParser.dfy`,
`Decimal.dfy`): the buffered consumer of chunks against splitting the whole stream.

**The JSON log** (`JsonSpec.dfy`, `Utf8.dfy`, `EventLog.dfy`, `JsonLogger.dfy`): the printed
lines against a reader written from RFC 8259 and RFC 3629, up to reading the file of a whole
run back.

Points in time are integer nanoseconds, backoff delays integer milliseconds, and the
seconds of the histogram exact reals. The rate comparison of the detector, a quotient of
doubles in the source, is cross-multiplied in integers. A byte is a `char`.

## Where the code differs from what is written about it

The model follows the code.

- `include/hamstercam/capture_state_machine.hpp:29-34` says that a recommended wait of zero
  means progress or a poll that has waited, and a non-zero one that the machine is backing
  off. `Waits.ZeroWaitIff` says exactly when the wait is zero, and
  `Waits.ZeroWaitWithoutProgressIff` exactly when it is so without progress. There are three
  cases. A poll brought nothing: one that timed out has waited
  (`CaptureMachine.CaptureStateMachine.Step`), but one that failed need not have
  (`Waits.FailedPollRecommendsNoWait`), nor one ended by EINTR or followed by a VIDIOC_DQBUF
  that answers EAGAIN, which `V4l2.V4L2CaptureDevice.DequeueFrame` turns into a timeout. An
  attempt failed and its delay is configured as zero, which the daemon meets exactly if one
  of the three configured delays is zero (`Waits.FailureAtOnceHappensIff`). Or a step came
  in the last millisecond of a backoff, because the wait is truncated. That is for callers
  that do not sleep out the waits (`Waits.EarlyStepHappensIff`); the daemon does, and is
  never early (`Waits.NeverEarly`).
- The comment at `src/capture_state_machine.cpp:208-211` says that a format change is
  reported only if the driver's answer differs, and not from what. It is compared with the
  answer to the latest query, also one whose start then failed, so that a change of the
  published format can go unreported (`Formats.UnreportedChangeHappens`).
  `Formats.FaithfulIff` says exactly when the report is faithful.
- `include/hamstercam/event.hpp:27` gives a lost device a reason. The state machine never
  sets it, and the log prints "unknown" (`EventLog.LossesAreUnexplained`).
- `include/hamstercam/json_logger.hpp:21-23` promises one JSON line. Strings are printed
  byte by byte, so that a control character (RFC 8259 section 7) or text that is not UTF-8
  (section 8.1) makes the line no JSON. Among the fields of the events only a pixel format
  code can hold such bytes, and that of the big-endian 16-bit grey format of V4L2 does
  (`EventLog.BigEndianGreyIsRefused`). `JsonSpec.PrintedObjectIsReadBack` and
  `EventLog.EventLineIsReadBack` say exactly which lines are read back.
- `src/progress_parser.cpp:10-13` says that past the size cap the pending partial line is
  dropped. The size is tested before lines are split off, so complete lines of the same
  chunk go with it (`ProgressSpec.BeyondTheBound`).

## Model

| member | source | states |
|---|---|---|
| Backoffs.DoublingFollowsDelay | include/hamstercam/backoff.hpp:20-24 | the recurrence of the doubling step is met by the closed form of the k-th delay, also where the initial delay exceeds the maximum |
| Backoffs.DelayShape | include/hamstercam/backoff.hpp:9-24 | with initial at most max, the k-th delay is min(max, initial times 2^k), never shrinks and stays between the two |
| Backoffs.Backoff.constructor | include/hamstercam/backoff.hpp:17-18 | a new backoff has counted no failure |
| Backoffs.Backoff.Next | include/hamstercam/backoff.hpp:20-24 | the k-th call since the last reset returns the k-th delay of the closed form |
| Backoffs.Backoff.Reset | include/hamstercam/backoff.hpp:26 | the next delay is the initial one again |
| EventLanguage.StepIsRead | src/capture_state_machine.cpp:38-54 | the events of one step lead the event automaton from the position given by the old fields to the one given by the new fields |
| EventLanguage.LogIsAWord | src/capture_state_machine.cpp:56-69 | in every run the event log is a word of the automaton, which ends in the state named by state_, recovering_ and has_streamed_before_ |
| EventLanguage.WordsAreExactlyTheLogs | src/capture_state_machine.cpp:56-229 | a word is the event log of some run, with every wait slept out, if and only if it leads the automaton to a resting state: the automaton allows nothing that the device cannot bring about |
| EventLanguage.FirstMove | src/capture_state_machine.cpp:38-229 | for any rest of a word and any present time there are answers, in order of time and with every wait slept out, by which the machine emits the letters of its next move and gets to where the automaton is |
| EventLanguage.NoReasonIsGiven | src/capture_state_machine.cpp:299-303 | no event of any run carries a reason |
| Accounting.WordsBalance | src/capture_state_machine.cpp:274-311 | in every word of the automaton openings balance losses, starts balance cleared stalls, and stalls are cleared, lost or under way |
| Accounting.StepMirrors | src/capture_state_machine.cpp:102-110 | a step moves the reconnect, stall and lost-device counters by exactly the events it emits |
| Accounting.ExactAccounting | src/capture_state_machine.cpp:115-311 | in every reachable state the counters equal the counts of events in the log, the balances hold with the present state filling the gap, and the gauge is 0, 1 or 3 for an absent device, a wait for a producer and streaming, and never that of configuring or stalled |
| Tallies.StepIsTallied | src/capture_state_machine.cpp:38-54 | a step moves the frame, byte, session, stall and error counters by exactly what the calls it made add up to |
| Tallies.CallsExplainTheCounters | src/capture_state_machine.cpp:56-311 | in every reachable state frames, bytes, sessions, stalls by cause, and each of the errors of opening, querying, starting, dequeuing, timing out and losing the device are what the log of calls and answers adds up to, a release being told by the call just before it |
| DeviceProtocol.StepIsDisciplined | src/capture_state_machine.cpp:175-229 | the calls of one step take the device from what the old state holds to what the new state holds |
| DeviceProtocol.CallProtocol | src/capture_state_machine.cpp:56-74 | in every run no call is out of order, the device is open between steps exactly while streaming or waiting before a first frame, streams exactly while Streaming, has no frame outstanding, and is closed after shutdown |
| DeviceProtocol.ConfiguredBuffersAreAsked | src/capture_state_machine.cpp:119 | over every run, shutdown included, each start asks for the configured number of buffers, and the kernel is asked for nothing else |
| DeviceProtocol.ShutdownCloses | src/main.cpp:193-199 | whatever the run, stopping and closing leaves the device closed |
| Formats.FormatsFollowTheCalls | src/capture_state_machine.cpp:99-137 | in every reachable state the current format is that of the latest query that knew one, the published one that of the latest successful start, and while streaming they agree |
| Formats.EventsNameTheQueries | src/capture_state_machine.cpp:202-220 | in every run a format change names the format of the latest query before it and the different one just learnt, and any start is announced with the format just learnt and published |
| Formats.FaithfulIff | src/capture_state_machine.cpp:202-204 | the report agrees with the change of the published format, whatever comes back and whenever, if and only if the current format is still the published one |
| Formats.ChangeReportedIffPublishedDiffers | src/capture_state_machine.cpp:206-220 | if no start fails between a release and the reacquisition, a change is reported if and only if the published format differs before and after, with exactly those two formats |
| Formats.UnreportedChangeHappens | src/capture_state_machine.cpp:202-225 | some run, with every wait slept out, publishes another format on a reacquisition and reports no change |
| Formats.ReachRecovery | src/capture_state_machine.cpp:274-297 | some such run is in recovery with the published format still the current one |
| RateDetector.CutPartitions | src/capture_state_machine.cpp:248-251 | the windows cut from the frame times contain every frame exactly once, in order |
| RateDetector.CutClosesOnTime | src/capture_state_machine.cpp:248-272 | every window but the last closes at its first frame two seconds or more after its start, which is where the next one starts |
| RateDetector.CutSnoc | src/capture_state_machine.cpp:248-272 | one more frame joins the open window or closes it, and changes no earlier one |
| RateDetector.DetectorRefinesWindows | src/capture_state_machine.cpp:248-272 | the online detector holds the open window, is active exactly if the last closed one was too fast, and has recorded the rising edges of the verdicts |
| RateDetector.NoFalseAlarm | src/capture_state_machine.cpp:253-268 | if every gap is at least d and 5 times expected_fps times d is at least a second, nothing is ever recorded |
| RateDetector.NoRateNoEpisode | src/capture_state_machine.cpp:257 | with no rate expected nothing is recorded and nothing is active, whatever the frame times |
| RateDetector.TooFastIff | src/capture_state_machine.cpp:253-257 | the comparison in integers says that there is an expected rate and that frames divided by seconds exceed five times it |
| RateDetector.FloodIsFlagged | src/capture_state_machine.cpp:248-272 | from 4 s and two gaps after a flood sets in the detector is active, and the flood costs at most one record |
| Sessions.SessionsExplainTheStats | src/capture_state_machine.cpp:231-297 | in every reachable state the observed intervals are the frame gaps of the sessions, the frame counter their frames, the stalls the releases after silences and after mismatches, the timeout errors those after silences, and the geometry errors those after mismatches and the rate episodes |
| Sessions.IntervalsTelescope | src/capture_state_machine.cpp:240-245 | in whole nanoseconds, for every run: the histogram's sum is the total of last minus first frame time over the sessions, its count the frames less the sessions with any, and each cumulative bucket counts the gaps between consecutive frames at most its bound, from 5 ms to 5 s |
| Sessions.SessionsAreTheCalls | src/capture_state_machine.cpp:128-145 | in every reachable state the sessions are the successful starts of the call log, each with the capture times of exactly the frames dequeued after it and before the next |
| Sessions.LastFrameTime | src/capture_state_machine.cpp:236-238 | in every reachable state the last-frame time is the whole seconds of what the wall clock read at the latest frame, or 0 before any |
| Sessions.NormalRatesAreNeverFlagged | src/capture_state_machine.cpp:257-268 | in a run whose frames never come five times too fast every geometry error stands for a release after a payload mismatch |
| Sessions.NoRateIsNeverFlagged | src/capture_state_machine.cpp:257 | in any run with expected_fps 0 every geometry error stands for a release after a payload mismatch and rate_anomaly_active_ is never set |
| Sessions.RunKeepsTime | src/capture_state_machine.cpp:128-133 | under a clock that never runs backwards the frame times of every session, its start included, never do |
| Sessions.FloodsAreFlagged | src/capture_state_machine.cpp:248-272 | in any run under such a clock that is streaming a flood, rate_anomaly_active_ is set once a frame comes 4 s and two gaps after it set in, and the geometry errors are at most one more than the mismatches and the episodes before it |
| Sessions.EpisodesAreEdges | src/capture_state_machine.cpp:262-268 | over any sessions the episodes recorded online are the rising edges of the window verdicts |
| Sessions.WindowsExplainTheErrors | src/capture_state_machine.cpp:128-133 | in every run the timeout errors are the releases after silences, the geometry errors the releases after mismatches and the rising edges of the windows of each session, every session starting inactive, and the fields of the detector are those of the open window |
| Timing.AttemptsAreSpaced | src/capture_state_machine.cpp:77-97 | within a waiting phase every attempt comes no earlier than the pause of the failed one before, whatever kind of failure it was, every failure grows the one backoff, and the last one holds back whatever attempt comes next |
| Timing.RetryBudget | src/capture_state_machine.cpp:175-198 | in any run, from the entry into a waiting phase up to and including the attempt that ends it, the k-th attempt is followed by none for the k-th delay of a fresh backoff, and attempts i to j span at least the delays between them |
| Timing.StartupRetryBudget | src/capture_state_machine.cpp:56-74 | the same from start-up, up to and including the attempt that opens the device |
| Waits.FailedAttemptWaits | src/capture_state_machine.cpp:71-97 | whatever the state and the answers, a failed attempt of any waiting phase recommends exactly the backoff delay of the failures before it, puts the next attempt off by that delay from a moment within the step, and counts one failure more |
| Waits.RetryWaits | src/capture_state_machine.cpp:175-198 | in any run, from the entry into a waiting phase, the k-th failed attempt recommends exactly the k-th delay of a fresh backoff, never more than the larger of the initial and the maximum delay |
| Waits.StartupRetryWaits | src/capture_state_machine.cpp:71-74 | the same from start-up |
| Timing.AttemptsInATime | src/capture_state_machine.cpp:56-97 | so many attempts fit into a time as their delays do, and no more than one per initial delay if that is at most the maximum of the phase |
| Waits.SleepsEndOnTime | src/capture_state_machine.cpp:177-179 | whenever the recommended sleep of a waiting step begins, it ends less than a millisecond short of the next attempt and past it by no more than the time since the step read the clock |
| Waits.NeverEarly | src/main.cpp:193-196 | in any run with every wait slept out no step comes before the next attempt is due: every waiting step makes an attempt |
| Waits.ZeroWaitIff | src/capture_state_machine.cpp:38-54 | for any answers a step recommends no wait if and only if it polled, made an attempt that succeeds, loses the device or fails with a delay configured as zero, or found the next attempt due within a millisecond |
| Waits.ZeroWaitWithoutProgressIff | include/hamstercam/capture_state_machine.hpp:29-34 | a step recommends no wait and makes no progress if and only if it polled and got nothing, or found the next attempt due within a millisecond, or was answered so that its attempt fails with no delay |
| Waits.FailedPollRecommendsNoWait | src/capture_state_machine.cpp:164-166 | in some run with every wait slept out a poll that fails is followed by no wait and no progress |
| Waits.EarlyStepHappensIff | src/capture_state_machine.cpp:58-60 | a step in the last millisecond of a backoff happens in some run, not every wait slept out, if and only if the initial delay is not zero |
| Waits.FailureAtOnceHappensIff | include/hamstercam/backoff.hpp:20-24 | an attempt that fails and is followed by no delay happens in some run, every wait slept out, if and only if one of the three configured delays is zero |
| Timing.NoFrameNoStall | src/capture_state_machine.cpp:156-162 | in any run, a session without a frame stays as it is through any number of timed-out polls |
| Timing.StallIsCaughtInTime | src/capture_state_machine.cpp:156-162 | if after a frame all polls time out and are at most p apart, the device is released within the threshold plus p of that frame, and not before the threshold |
| Timing.StallsAreDeserved | src/capture_state_machine.cpp:145-162 | in every run and for every next answer a timeout is counted if and only if the poll timed out and the latest frame of this session is at least the threshold ago, and a stall is counted and recovery begins if and only if that is so or a frame is not of the exact size of the published format |
| Timing.StallsStandStill | src/capture_state_machine.cpp:274-297 | until streaming resumes the stall counter does not move |
| V4l2.Kernel.Map | src/v4l2_capture_device.cpp:100-106 | assumption on the kernel: a new mapping is at no address in use and not at null |
| V4l2.Kernel.Poll | src/v4l2_capture_device.cpp:141-145 | assumption on the kernel: a poll that times out has waited for as long as it was told to |
| V4l2.Kernel.DequeueBuffer | src/v4l2_capture_device.cpp:152-158 | assumption on the kernel: a dequeued index is below the number of mapped buffers |
| V4l2.V4L2CaptureDevice.constructor | src/v4l2_capture_device.cpp:28 | a new device holds nothing |
| V4l2.V4L2CaptureDevice.Open | src/v4l2_capture_device.cpp:35-39 | called only while closed; the answer is Opened exactly if the kernel gave a descriptor, which is then held |
| V4l2.V4L2CaptureDevice.Close | src/v4l2_capture_device.cpp:41-47 | afterwards no mapping and no descriptor is left |
| V4l2.V4L2CaptureDevice.UnmapBuffers | src/v4l2_capture_device.cpp:133-138 | every live mapping is given back once, none is left, and the list is empty |
| V4l2.V4L2CaptureDevice.QueryCompressed | src/v4l2_capture_device.cpp:67-76 | the formats are enumerated in order up to the first with the code, which decides, or to the end, and then the code counts as compressed |
| V4l2.V4L2CaptureDevice.QueryFormat | src/v4l2_capture_device.cpp:49-65 | from the replies the kernel recorded: NoProducer exactly on EINVAL, Error on any other error, else Known with the format replied and the compression listed for it |
| V4l2.V4L2CaptureDevice.MapBuffer | src/v4l2_capture_device.cpp:89-112 | one buffer is queried, mapped with the length replied and queued, or the failed reply is the last and no mapping is left |
| V4l2.V4L2CaptureDevice.MapBuffers | src/v4l2_capture_device.cpp:86-112 | all granted buffers are queried, mapped and queued in order, or the first failed reply is the last and no mapping is left; the list is always the set of live mappings, each once |
| V4l2.V4L2CaptureDevice.StartStreaming | src/v4l2_capture_device.cpp:78-122 | the first reply is to a request for the wanted number of buffers, also on a failure; Started exactly if the wanted number of buffers was requested, all granted ones were mapped and queued in order and the stream turned on; otherwise the last reply is the first that failed and no mapping is left |
| V4l2.V4L2CaptureDevice.StopStreaming | src/v4l2_capture_device.cpp:124-131 | not streaming and no mapping left, also if called while not streaming; the stream is turned off exactly if it was on |
| V4l2.V4L2CaptureDevice.DequeueFrame | src/v4l2_capture_device.cpp:140-162 | each combination of replies the kernel recorded to the poll and to VIDIOC_DQBUF gives the one answer it stands for; a frame carries the index and size replied and the clock at that moment, and a poll that timed out has waited |
| V4l2.V4L2CaptureDevice.Poll | src/v4l2_capture_device.cpp:144-161 | the same with the buffer taken out of the driver's queue exactly for a frame |
| V4l2.V4L2CaptureDevice.RequeueFrame | src/v4l2_capture_device.cpp:164-170 | the buffer dequeued last is queued again; while streaming every mapped buffer is with the driver, with the caller, or had its last queuing refused by the recorded reply |
| V4l2.LedgerPop | src/v4l2_capture_device.cpp:134-136 | unmapping the first of the listed mappings leaves exactly the others live |
| CaptureStatistics.CaptureStats.RecordError | include/hamstercam/stats.hpp:30-32 | one more error of that reason and nothing else changes |
| CaptureStatistics.CaptureStats.ErrorCount | include/hamstercam/stats.hpp:34-36 | the errors recorded for that reason |
| CaptureStatistics.CaptureStats.SetStreamInfo | include/hamstercam/stats.hpp:38-42 | the format is published and nothing else changes |
| CaptureStatistics.CaptureStats.StreamInfo | include/hamstercam/stats.hpp:45-50 | the format published last, or none |
| CaptureMachine.CaptureStateMachine.constructor | src/capture_state_machine.cpp:19-36 | a new machine is the start of the specification |
| CaptureMachine.CaptureStateMachine.Step | src/capture_state_machine.cpp:38-54 | the object takes exactly one step of the specification for the answers it got: new fields and statistics, events, calls and wait, with the device left as the new state says, the clocks read in order and the wall clock once for a frame; while streaming it polls first, and a poll that timed out has waited |
| CaptureMachine.CaptureStateMachine.StepDeviceAbsent | src/capture_state_machine.cpp:56-75 | the same for an absent device |
| CaptureMachine.CaptureStateMachine.StepAwaitingProducer | src/capture_state_machine.cpp:77-113 | the same for the wait before a first frame |
| CaptureMachine.CaptureStateMachine.EnterConfiguring | src/capture_state_machine.cpp:115-138 | the kernel is asked for the configured number of buffers once; the same for configuring, which ends in Streaming or back in the wait with a grown backoff |
| CaptureMachine.CaptureStateMachine.StepStreaming | src/capture_state_machine.cpp:140-173 | the same while streaming |
| CaptureMachine.CaptureStateMachine.StepRecovering | src/capture_state_machine.cpp:175-229 | the same for a recovery attempt, which never keeps the device open if it fails |
| CaptureMachine.CaptureStateMachine.HandleFrame | src/capture_state_machine.cpp:231-246 | the frame goes back to the driver and is counted, with the interval to the frame before and one reading of the wall clock |
| CaptureMachine.CaptureStateMachine.CheckArrivalRate | src/capture_state_machine.cpp:248-272 | the detector takes one observation and an opened episode is one geometry error |
| CaptureMachine.CaptureStateMachine.BeginReleaseCycle | src/capture_state_machine.cpp:274-297 | the device is released and the wait for a producer begins with a fresh backoff |
| CaptureMachine.CaptureStateMachine.LoseDevice | src/capture_state_machine.cpp:299-311 | the device is released and everything starts over |
| Daemon.InterruptibleSleep | src/main.cpp:41-49 | the sleep takes the whole time, or ends at the first look at the stop flag that finds it set; the looks taken and the time slept are exactly those of its slices |
| Daemon.Turn | src/main.cpp:193-196 | one turn of the loop is one step of the specification, no earlier than the clock before it, and lasts until the recommended wait is over or the stop flag is set; while streaming it polls for 200 ms, and a poll that timed out has taken them |
| Daemon.LoggedTurn | src/main.cpp:193-196 | the log grows by exactly the lines of the events of the step |
| Daemon.Serve | src/main.cpp:193-199 | whenever the stop request comes and whatever the kernel answers, the events, statistics and calls are a run of the specification under a clock that never runs backwards with every wait slept out before the next step, the log is the lines of exactly its events, after shutdown no descriptor and no mapping is held, and the kernel has been asked for buffers once per start and always for the configured number |
| Histograms.RenderedIsRawCount | src/metrics.cpp:22-26 | for nondecreasing bounds the cumulative value at a bound is the number of observations at most that bound |
| Histograms.InfinityIsCount | src/metrics.cpp:27-30 | for any bounds the last cumulative value, the count and the sum are those of all observations |
| Histograms.RawCountNeedsOrderedBounds | include/hamstercam/histogram.hpp:27-39 | the cumulative values count the raw observations, whatever they are, if and only if the bounds are nondecreasing |
| Histograms.FrameIntervalBucketsOrdered | include/hamstercam/histogram.hpp:13-17 | the bounds in use are nondecreasing |
| Histograms.Histogram.Observe | include/hamstercam/histogram.hpp:27-39 | the histogram is that of the observations so far and this one |
| Histograms.Histogram.TakeSnapshot | include/hamstercam/histogram.hpp:47-50 | counts, sum and total are those of one and the same sequence of observations |
| Histograms.WriteHistogram | src/metrics.cpp:14-31 | one line per bound with the raw count at most that bound, nondecreasing, then +Inf equal to the count, then the sum and the count |
| Decimals.PrintIsRead | src/json_logger.cpp:102 | a printed number is a nonempty string of digits without a superfluous zero and is worth the number |
| Decimals.ValueInTwo | src/progress_parser.cpp:19-22 | digits put after a numeral shift it by their number, so that every string of digits, superfluous zeros included, is worth what its digits say |
| ProgressSpec.LinesInTwo | src/progress_parser.cpp:49-56 | cutting a stream anywhere and keeping the unterminated tail loses and adds no line |
| ProgressSpec.LinesAreTheStream | src/progress_parser.cpp:49-56 | the lines, each with its newline, and the tail make up the stream |
| ProgressSpec.LinesAreUnbroken | src/progress_parser.cpp:49-56 | no line and no tail has a newline in it |
| ProgressSpec.FeedingIsSplitting | src/progress_parser.cpp:42-57 | without overflow the lines parsed are the complete lines of the whole stream and the buffer is its tail |
| ProgressSpec.AnyChunkingAgrees | src/progress_socket_server.cpp:71-80 | if the longest line and the largest chunk fit the cap together, no way of cutting the stream overflows and all hand over the same lines |
| ProgressSpec.BoundIsExact | src/progress_parser.cpp:43-47 | for any longest line and any largest chunk of at least a byte, no such stream overflows however it is cut if and only if the two fit the cap of 65536 bytes together |
| ProgressSpec.BeyondTheBound | src/progress_parser.cpp:43-47 | if they do not fit, some stream of such lines, cut into such chunks, overflows and loses a complete line |
| ProgressSpec.OverflowsOnlyCutStretches | src/progress_parser.cpp:42-57 | for arbitrary chunks the lines parsed are the complete lines of each stretch between overflows, and the buffer never has a newline or more than 65536 bytes |
| ProgressLaws.LastWriterWins | src/progress_parser.cpp:68-79 | a counter holds the value, modulo 2^64, of the last line that says key=value with exactly its key and a nonempty all-digit value, else its first value |
| ProgressLaws.CounterLines | src/progress_parser.cpp:68-79 | a line frame=v, drop_frames=v or dup_frames=v sets just the counter of that name to the value modulo 2^64 if v is a nonempty string of digits, and changes nothing for any other v |
| ProgressLaws.LastGaugeWins | src/progress_parser.cpp:71-84 | fps and speed hold what std::stod makes of the last line with their key that it accepts, N/A excepted and a trailing x of the speed dropped, else their first value |
| ProgressLaws.GaugeLines | src/progress_parser.cpp:71-84 | a line speed=v or speed=vx sets just the speed, and fps=v just the rate, to what std::stod makes of v, and changes nothing if v is empty, N/A or refused |
| ProgressLaws.PrintedCounterIsReadBack | src/progress_parser.cpp:16-25 | for every n below 2^64 feeding the printed counter to an empty buffer sets it to n, and printing it gives the same digits |
| ProgressLaws.TimestampIsLastProgress | src/progress_parser.cpp:85-91 | the timestamp is the clock at the last line with the key progress |
| ProgressLaws.TimesReachOnlyTheTimestamp | src/progress_parser.cpp:59-92 | when the lines were parsed has no influence on anything but the timestamp |
| ProgressLaws.ChunkingDoesNotMatter | src/progress_socket_server.cpp:71-80 | any two ways of cutting a stream within the bound give the same statistics but for the timestamp |
| ProgressLaws.CrlfIsTransparent | src/progress_parser.cpp:60 | if no line ends in a carriage return, the stream with CRLF line ends gives the same statistics but for the timestamp under any two chunkings without overflow |
| ProgressParsing.ParseU64 | src/progress_parser.cpp:16-25 | refuses the empty string and any non-digit, else the value modulo 2^64 |
| ProgressParsing.ProgressParser.ParseLine | src/progress_parser.cpp:59-92 | the statistics stay those of all lines parsed so far, applied in order, the clock having been read exactly once for each progress line |
| ProgressParsing.ProgressParser.WriteLine | src/progress_parser.cpp:59-92 | one line changes the one field its key names, if its value is well formed; a progress line reads the clock once and stores it in whole seconds |
| ProgressParsing.ProgressParser.Feed | src/progress_parser.cpp:42-57 | the buffer and the lines parsed move as specified, the overflow included |
| ProgressParsing.Receive | src/progress_socket_server.cpp:71-80 | for reads of at most 4096 bytes and lines of at most 61440 the statistics are those of the complete lines of the whole stream |
| JsonSpec.ReadEscaped | src/json_logger.cpp:27-35 | an escaped string is read back as it was if it has no control character, and is refused otherwise |
| JsonSpec.EscapedInUtf8 | src/json_logger.cpp:27-35 | escaping neither makes nor breaks UTF-8 |
| JsonSpec.PrintedObjectIsReadBack | src/json_logger.cpp:72-98 | with keys that need no escaping a printed object is read back as the same keys, strings and numbers in order if no string has a control character and all are in UTF-8, and is refused otherwise |
| JsonSpec.PrintedObjectIsOneLine | src/json_logger.cpp:72-77 | such an object has no newline in it |
| EventLog.PixelFormatIsReadBack | src/capture_device.cpp:6-15 | the four characters printed determine the code |
| EventLog.EventLineIsReadBack | src/json_logger.cpp:113-149 | the line of an event is read back as its fields if and only if the codes it prints have no byte below 0x20 and are in UTF-8 |
| EventLog.LineTells | src/json_logger.cpp:113-149 | the line of every readable event, read back, gives its time, its level, its name and, for a start or a format change, width, height and code of each format under its own key |
| EventLog.FormatLinesNameTheQueries | src/json_logger.cpp:121-147 | in every run the line of a start or a format change gives, under the right keys, the format the driver was just asked for, and that of a change under the previous_ keys the one of the latest query before |
| EventLog.ThresholdsLetThrough | src/json_logger.cpp:100-101 | level info lets every event through, warn exactly the lost device and the detected stall, error none |
| EventLog.BigEndianGreyIsRefused | src/json_logger.cpp:121-126 | the line that announces a stream in the big-endian 16-bit grey format is refused, though its code has no control character |
| EventLog.LossesAreUnexplained | src/json_logger.cpp:127-129 | in every run the line of a lost device, read back, has level warn and gives its reason as unknown |
| EventLog.FileIsReadBack | src/json_logger.cpp:100-111 | the log, cut at its newlines and read line by line, is exactly the events that the level lets through, in order, each line giving its time, level, name and numbers under their keys |
| EventLog.FileTellsTheRun | src/json_logger.cpp:113-149 | at level info or below the kinds read back from the log of a run are the events it emitted, and they lead the event automaton to where the machine is |
| JsonLogging.EscapeText | src/json_logger.cpp:27-35 | the loop builds the escaped string |
| JsonLogging.LogLine.TextField | src/json_logger.cpp:79-88 | the line grows by one string member, unless it is silent |
| JsonLogging.LogLine.NumberField | src/json_logger.cpp:90-98 | the line grows by one number member, unless it is silent |
| JsonLogging.LogLine.Finish | src/json_logger.cpp:72-77 | the output grows by the closed line, unless it is silent |
| JsonLogging.JsonLogger.Log | src/json_logger.cpp:100-111 | the line begins with time stamp, level and event as an unclosed object, and is silent exactly below the level |
| JsonLogging.JsonEventSink.Emit | src/json_logger.cpp:113-149 | the output grows by exactly the line of the event, or by nothing below the level |
| JsonLogging.JsonEventSink.EmitAll | src/json_logger.cpp:113-149 | the output grows by the lines of the events in order |

## Left out

- The HTTP server, the accept loop of the progress socket, signals and threads: input and output only; of the socket server only the reading loop and its 4096-byte reads are modelled.
- Relaxed atomics and the two mutexes: statistics are read and written sequentially.
- The order between an event and the device calls of the same step: events and calls are two logs.
- The stall threshold's derivation from expected_fps and stall_multiple, the quotient of the rate and the running histogram sum in floating point: the threshold is given, the others are exact.
- Wrap-around of the exported 64-bit counters and of the 32-bit frame count of a window: they are unbounded here; parse_u64 does wrap.
- The kernel: its answers are arbitrary but for the rows above, a finite list of formats, and that requests need an open descriptor; a call repeated while interrupted is one call, and the constructor's device path, buffer offsets and poll flags other than "gone" do not appear.
- The destructor of the device: it makes the same two calls as the shutdown.
- std::stod: an arbitrary partial function from strings to bit patterns.
- Time stamps of log lines: any text in UTF-8 without characters that need escaping; a clock before 1970 and the format of RFC 3339 are not modelled.
- JsonSpec.PrintedObjectIsReadBack: the reader refuses \u escapes, nested values, fractions, exponents and signs, none of which the logger prints.
- Daemon.LoggedTurn: the events of a step are printed when the step is over, not at the moment they are emitted; their order and their lines are the same.
- JsonLogging.JsonEventSink.Emit: the startup and shutdown lines that main writes to the same output are not events and are not part of the log text here.
- The headers and labels of the metrics page, the printing of doubles, and the metrics other than the histogram and the progress counters.
- The connected flag of the progress statistics, flags and environment, /proc, the build information and the parsing of the log level.
