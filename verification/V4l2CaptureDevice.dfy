/** The V4L2 device (v4l2_capture_device.cpp) over a kernel whose answers are
    arbitrary, with a ledger of what it has been given and not yet returned. */
module V4l2 {
  import opened Types
  import opened Clocks
  import opened DeviceProtocol

  datatype MappedBuffer = MappedBuffer(address: int, length: nat)

  datatype Errno = EINVAL | EAGAIN | EINTR | ENODEV | EIO | OtherErrno

  datatype PollResult = PollTimedOut | PollFailed(errno: Errno) | PollReady(gone: bool)

  /** One line of VIDIOC_ENUM_FMT. */
  datatype FormatEntry = FormatEntry(fourcc: uint32, compressed: bool)

  /** What the kernel was asked and what it answered. The answers to closing, unmapping
      and VIDIOC_STREAMOFF are ignored by the daemon and not recorded. */
  datatype Reply =
    | OpenReply(fd: int)
    | FormatReply(error: Option<Errno>, format: StreamFormat)
    | EnumReply(position: nat, entry: Option<FormatEntry>)
    | RequestReply(count: uint32, error: Option<Errno>, granted: uint32)
    | BufferReply(index: uint32, error: Option<Errno>, length: nat)
    | MapReply(length: nat, address: Option<int>)
    | QueueReply(index: uint32, error: Option<Errno>)
    | StreamOnReply(error: Option<Errno>)
    | StreamOffReply
    | PollReply(timeout: nat, polled: PollResult)
    | DequeueReply(error: Option<Errno>, index: uint32, bytesUsed: nat)

  const NO_DESCRIPTOR: int := -1

  /** The operating system as this daemon sees it. Callers know no more of its answers
      than these contracts say. `fds` and `live` are the descriptors and mappings handed
      out and not yet taken back; asking through or giving back anything else is an error.
      `queued` are the buffers handed to the driver for filling, `log` what it answered. */
  class Kernel {
    var fds: set<int>
    var live: set<MappedBuffer>
    var queued: set<nat>
    ghost var log: seq<Reply>

    /** The numbers of buffers asked for so far. */
    ghost var requested: seq<uint32>

    /** The driver lists finitely many formats. */
    const formatCount: nat

    ghost predicate Valid()
      reads this
    {
      forall b, c :: b in live && c in live && b.address == c.address ==> b == c
    }

    constructor (formatCount: nat)
      ensures Valid() && fds == {} && live == {}
    {
      this.formatCount := formatCount;
      fds, live, queued, log, requested := {}, {}, {}, [], [];
    }

    method Open() returns (fd: int)
      requires Valid()
      modifies this`fds, this`log
      ensures Valid() && log == old(log) + [OpenReply(fd)]
      ensures if fd < 0 then fds == old(fds) else fd !in old(fds) && fds == old(fds) + {fd}
    {
      fd := *;
      if fd < 0 || fd in fds {
        fd := NO_DESCRIPTOR;
      } else {
        fds := fds + {fd};
      }
      log := log + [OpenReply(fd)];
    }

    method Close(fd: int)
      requires fd in fds
      modifies this`fds
      ensures fds == old(fds) - {fd}
    {
      fds := fds - {fd};
    }

    /** Requests are repeated while interrupted. */
    method StreamOn(fd: int) returns (error: Option<Errno>)
      requires fd in fds
      modifies this`log
      ensures log == old(log) + [StreamOnReply(error)]
    {
      error := *;
      log := log + [StreamOnReply(error)];
    }

    method StreamOff(fd: int)
      requires fd in fds
      modifies this`queued, this`log
      ensures log == old(log) + [StreamOffReply]
    {
      queued := {};
      log := log + [StreamOffReply];
    }

    method GetFormat(fd: int) returns (error: Option<Errno>, format: StreamFormat)
      requires fd in fds
      modifies this`log
      ensures log == old(log) + [FormatReply(error, format)]
    {
      error := *;
      format := *;
      log := log + [FormatReply(error, format)];
    }

    method EnumerateFormat(fd: int, index: nat) returns (entry: Option<FormatEntry>)
      requires fd in fds
      modifies this`log
      ensures log == old(log) + [EnumReply(index, entry)]
      ensures index >= formatCount ==> entry == None
    {
      entry := *;
      if index >= formatCount {
        entry := None;
      }
      log := log + [EnumReply(index, entry)];
    }

    /** The driver may grant another number of buffers than it was asked for. */
    method RequestBuffers(fd: int, count: uint32) returns (error: Option<Errno>, granted: uint32)
      requires fd in fds
      modifies this`queued, this`log, this`requested
      ensures log == old(log) + [RequestReply(count, error, granted)] && requested == old(requested) + [count]
      ensures error == None ==> queued == {}
    {
      error := *;
      granted := *;
      queued := {};
      log := log + [RequestReply(count, error, granted)];
      requested := requested + [count];
    }

    method QueueBuffer(fd: int, index: uint32) returns (error: Option<Errno>)
      requires fd in fds
      modifies this`queued, this`log
      ensures log == old(log) + [QueueReply(index, error)]
      ensures queued == if error == None then old(queued) + {index as nat} else old(queued)
    {
      error := *;
      if error == None {
        queued := queued + {index as nat};
      }
      log := log + [QueueReply(index, error)];
    }

    method QueryBuffer(fd: int, index: uint32) returns (error: Option<Errno>, length: nat)
      requires fd in fds
      modifies this`log
      ensures log == old(log) + [BufferReply(index, error, length)]
    {
      error := *;
      length := *;
      log := log + [BufferReply(index, error, length)];
    }

    /** A new mapping never lies at an address in use, nor at the null address 0. */
    method Map(fd: int, length: nat) returns (mapped: Option<int>)
      requires Valid() && fd in fds
      modifies this`live, this`log
      ensures Valid() && log == old(log) + [MapReply(length, mapped)]
      ensures mapped == None ==> live == old(live)
      ensures mapped.Some? ==>
        && mapped.value != 0
        && (forall b :: b in old(live) ==> b.address != mapped.value)
        && live == old(live) + {MappedBuffer(mapped.value, length)}
    {
      var address: int := *;
      if address == 0 || address in set b <- live :: b.address {
        mapped := None;
      } else {
        mapped := Some(address);
        live := live + {MappedBuffer(address, length)};
      }
      log := log + [MapReply(length, mapped)];
    }

    method Unmap(b: MappedBuffer)
      requires Valid() && b in live
      modifies this`live
      ensures Valid() && live == old(live) - {b}
    {
      live := live - {b};
    }

    /** A poll takes time; one that times out takes at least the time it was given. */
    method Poll(fd: int, timeout: nat, clock: Clock) returns (result: PollResult)
      requires fd in fds
      modifies this`log, clock`now
      ensures log == old(log) + [PollReply(timeout, result)]
      ensures old(clock.now) <= clock.now
      ensures result == PollTimedOut ==> clock.now >= old(clock.now) + timeout * NS_PER_MS
    {
      result := *;
      clock.SleepFor(if result == PollTimedOut then timeout else 0);
      log := log + [PollReply(timeout, result)];
    }

    /** A dequeued index is below the number of mapped buffers. */
    method DequeueBuffer(fd: int, mapped: nat) returns (error: Option<Errno>, index: uint32, bytesUsed: nat)
      requires fd in fds
      modifies this`queued, this`log
      ensures log == old(log) + [DequeueReply(error, index, bytesUsed)]
      ensures error == None ==> index < mapped && queued == old(queued) - {index as nat}
      ensures error.Some? ==> queued == old(queued)
    {
      error := *;
      var i: uint32 := *;
      index, bytesUsed := i, *;
      if i >= mapped {
        error := Some(OtherErrno);
      }
      if error == None {
        queued := queued - {i};
      }
      log := log + [DequeueReply(error, index, bytesUsed)];
    }
  }

  class V4L2CaptureDevice {
    const kernel: Kernel
    const clock: Clock
    var fd: int
    var buffers: seq<MappedBuffer>
    var streaming: bool

    /** The calls so far, and where they leave the reader of the call protocol. */
    ghost var calls: seq<Call>
    ghost var use: Use

    /** What the kernel had been asked for before this device. */
    ghost const requestedBefore: seq<uint32>

    /** The buffers that could not be queued again when they were last returned. */
    ghost var strayed: set<nat>

    /** `buffers` lists exactly the live mappings, each once; the descriptor is the one
        open descriptor; both are held exactly as the protocol position says. While running
        every buffer is with the driver, in use by the caller, or has strayed. The kernel
        has been asked for just the buffers that the starts name. */
    ghost predicate Valid()
      reads this, kernel
    {
      && kernel.Valid()
      && Ledger(buffers, kernel.live)
      && kernel.requested == Asked(requestedBefore, calls, |calls|)
      && (fd < 0 ==> fd == NO_DESCRIPTOR && kernel.fds == {})
      && (fd >= 0 ==> kernel.fds == {fd})
      && match use
         case Closed => fd < 0 && !streaming && buffers == []
         case Ready(_) => fd >= 0 && !streaming && buffers == []
         case Running => fd >= 0 && streaming && kernel.queued + strayed == Indices(|buffers|)
         case Holding(i) => fd >= 0 && streaming && kernel.queued + strayed + {i as nat} == Indices(|buffers|)
         case Misused => false
    }

    constructor (kernel: Kernel, clock: Clock)
      requires kernel.Valid() && kernel.fds == {} && kernel.live == {}
      ensures Valid() && use == Closed && calls == [] && this.kernel == kernel && this.clock == clock
      ensures requestedBefore == kernel.requested
    {
      this.kernel, this.clock := kernel, clock;
      fd, buffers, streaming := NO_DESCRIPTOR, [], false;
      calls, use, strayed, requestedBefore := [], Closed, {}, kernel.requested;
    }

    /** Adds a call to the log. */
    ghost method Note(call: Call)
      requires kernel.requested
            == if call.StartCall? then Asked(requestedBefore, calls, |calls|) + [call.count] else Asked(requestedBefore, calls, |calls|)
      modifies this`calls, this`use
      ensures calls == old(calls) + [call] && use == Apply(old(use), call)
      ensures kernel.requested == Asked(requestedBefore, calls, |calls|)
    {
      AskedInFront(requestedBefore, calls, call, |calls|);
      calls := calls + [call];
      use := Apply(use, call);
    }

    method Open() returns (result: OpenResult)
      requires Valid() && use == Closed
      modifies this, kernel`fds, kernel`log
      ensures Valid() && kernel.log != [] && kernel.log == old(kernel.log) + [Last(kernel.log)]
      ensures Last(kernel.log).OpenReply? && (result == Opened <==> Last(kernel.log).fd >= 0)
      ensures result == Opened ==> fd == Last(kernel.log).fd
      ensures calls == old(calls) + [OpenCall(result)] && use == Apply(old(use), OpenCall(result))
    {
      fd := kernel.Open();
      if fd < 0 {
        fd := NO_DESCRIPTOR;
        result := OpenResult.Absent;
      } else {
        result := Opened;
      }
      Note(OpenCall(result));
    }

    /** Unmapping gives every mapping back once and leaves none. */
    method UnmapBuffers()
      requires kernel.Valid() && Ledger(buffers, kernel.live)
      modifies this`buffers, kernel`live
      ensures kernel.Valid() && buffers == [] && kernel.live == {}
    {
      var i := 0;
      while i < |buffers|
        invariant 0 <= i <= |buffers| && buffers == old(buffers)
        invariant kernel.Valid() && Ledger(buffers[i..], kernel.live)
      {
        LedgerPop(buffers[i..], kernel.live);
        assert buffers[i..][1..] == buffers[i + 1..];
        if buffers[i].address != 0 {
          kernel.Unmap(buffers[i]);
        }
        i := i + 1;
      }
      buffers := [];
    }

    method Close()
      requires Valid() && Apply(use, CloseCall) != Misused
      modifies this, kernel`fds, kernel`live
      ensures Valid() && kernel.fds == {} && kernel.live == {} && kernel.log == old(kernel.log)
      ensures calls == old(calls) + [CloseCall] && use == Apply(old(use), CloseCall)
    {
      UnmapBuffers();
      if fd >= 0 {
        kernel.Close(fd);
        fd := NO_DESCRIPTOR;
      }
      Note(CloseCall);
    }

    method QueryCompressed(fourcc: uint32) returns (compressed: bool, ghost replies: seq<Reply>)
      requires fd in kernel.fds
      modifies kernel`log
      ensures kernel.log == old(kernel.log) + replies && Lists(replies, fourcc, compressed)
    {
      replies := [];
      var index := 0;
      while true
        invariant |replies| == index && kernel.log == old(kernel.log) + replies && PassesOver(replies, fourcc)
        invariant index <= kernel.formatCount
        decreases kernel.formatCount - index
      {
        var entry := kernel.EnumerateFormat(fd, index);
        replies := replies + [EnumReply(index, entry)];
        if entry == None {
          break;
        }
        if entry.value.fourcc == fourcc {
          return entry.value.compressed, replies;
        }
        index := index + 1;
      }
      compressed := true;
    }

    /** The answer follows from what the kernel replied. */
    method QueryFormat() returns (answer: FormatAnswer, ghost replies: seq<Reply>)
      requires Valid() && use.Ready?
      modifies this`calls, this`use, kernel`log
      ensures Valid()
      ensures calls == old(calls) + [QueryCall(answer)] && use == Apply(old(use), QueryCall(answer))
      ensures kernel.log == old(kernel.log) + replies && Describes(replies, answer)
    {
      var error, format := kernel.GetFormat(fd);
      replies := [FormatReply(error, format)];
      if error == Some(EINVAL) {
        answer := NoProducer;
      } else if error.Some? {
        answer := QueryError;
      } else {
        var compressed;
        ghost var listing;
        compressed, listing := QueryCompressed(format.pixelFormatFourcc);
        answer := Known(format.(compressed := compressed));
        replies := replies + listing;
        assert replies[1..] == listing;
      }
      Note(QueryCall(answer));
    }

    /** One buffer: queried, mapped, queued; a failure unmaps all there are. */
    method MapBuffer(i: uint32) returns (ok: bool, ghost replies: seq<Reply>)
      requires kernel.Valid() && fd in kernel.fds && Ledger(buffers, kernel.live) && kernel.queued == Indices(i)
      modifies this`buffers, kernel`live, kernel`queued, kernel`log
      ensures kernel.Valid() && Ledger(buffers, kernel.live)
      ensures kernel.log == old(kernel.log) + replies
      ensures ok ==>
        && kernel.queued == Indices(i as nat + 1)
        && |buffers| == |old(buffers)| + 1 && buffers == old(buffers) + [Last(buffers)]
        && replies == Mapped(i, Last(buffers))
      ensures !ok ==> buffers == [] && EndsInFailure(replies)
    {
      ok := false;
      var error, length := kernel.QueryBuffer(fd, i);
      replies := [BufferReply(i, error, length)];
      if error.Some? {
        UnmapBuffers();
        return;
      }
      var mapped := kernel.Map(fd, length);
      replies := replies + [MapReply(length, mapped)];
      if mapped == None {
        UnmapBuffers();
        return;
      }
      buffers := buffers + [MappedBuffer(mapped.value, length)];
      error := kernel.QueueBuffer(fd, i);
      replies := replies + [QueueReply(i, error)];
      if error.Some? {
        UnmapBuffers();
        return;
      }
      ok := true;
    }

    /** Maps and queues the granted buffers in order; the first failure unmaps them and
        ends the attempt. */
    method MapBuffers(granted: uint32) returns (ok: bool, ghost replies: seq<Reply>)
      requires kernel.Valid() && fd in kernel.fds && buffers == [] && kernel.live == {} && kernel.queued == {}
      modifies this`buffers, kernel`live, kernel`queued, kernel`log
      ensures kernel.Valid() && Ledger(buffers, kernel.live)
      ensures kernel.log == old(kernel.log) + replies
      ensures ok ==> |buffers| == granted && MapsInOrder(replies, buffers) && kernel.queued == Indices(granted)
      ensures !ok ==> buffers == [] && EndsInFailure(replies)
    {
      replies := [];
      var i: uint32 := 0;
      while i < granted
        invariant i <= granted && |buffers| == i && MapsInOrder(replies, buffers)
        invariant kernel.log == old(kernel.log) + replies
        invariant kernel.Valid() && Ledger(buffers, kernel.live) && kernel.queued == Indices(i)
      {
        ghost var before := buffers;
        ghost var three;
        var mapped;
        mapped, three := MapBuffer(i);
        MapsWithoutFailure(replies, before);
        if !mapped {
          FailsLater(replies, three);
          return false, replies + three;
        }
        MapsOneMore(replies, before, i, Last(buffers));
        replies := replies + three;
        i := i + 1;
      }
      ok := true;
    }

    /** Maps the granted buffers and starts the stream. */
    method MapAndStart(granted: uint32, ghost count: uint32) returns (ok: bool, ghost replies: seq<Reply>)
      requires kernel.Valid() && fd in kernel.fds && buffers == [] && kernel.live == {} && kernel.queued == {}
      modifies this`buffers, kernel`live, kernel`queued, kernel`log
      ensures kernel.Valid() && Ledger(buffers, kernel.live)
      ensures kernel.log == old(kernel.log) + replies
      ensures ok ==>
        && |buffers| == granted && kernel.queued == Indices(granted)
        && StartsInOrder([RequestReply(count, None, granted)] + replies, count, buffers)
      ensures !ok ==> buffers == [] && EndsInFailure([RequestReply(count, None, granted)] + replies)
    {
      ghost var request := [RequestReply(count, None, granted)];
      ok, replies := MapBuffers(granted);
      if !ok {
        FailsLater(request, replies);
      } else {
        MapsWithoutFailure(replies, buffers);
        StartsAfterRequest(count, granted, replies, buffers);
        var error := kernel.StreamOn(fd);
        if error.Some? {
          FailsLater(replies, [StreamOnReply(error)]);
          FailsLater(request, replies + [StreamOnReply(error)]);
          UnmapBuffers();
          ok := false;
        }
        replies := replies + [StreamOnReply(error)];
      }
    }

    /** Sizes and maps buffers for the format queried last. Nothing is held before, so the
        clearing of the list discards no live mapping; nothing is left after a failure. It
        starts if every request succeeded, all granted buffers being mapped and queued in
        order, and else it ended at the first request that failed. */
    method StartStreaming(bufferCount: uint32) returns (result: StreamStartResult, ghost replies: seq<Reply>)
      requires Valid() && use == Ready(true)
      modifies this, kernel`live, kernel`queued, kernel`log, kernel`requested
      ensures Valid()
      ensures var call := StartCall(bufferCount, result); calls == old(calls) + [call] && use == Apply(old(use), call)
      ensures kernel.requested == old(kernel.requested) + [bufferCount]
      ensures kernel.log == old(kernel.log) + replies && replies != []
      ensures replies[0].RequestReply? && replies[0].count == bufferCount
      ensures result == Started ==>
        StartsInOrder(replies, bufferCount, buffers) && kernel.queued == Indices(|buffers|) && strayed == {}
      ensures result == BufferError ==> EndsInFailure(replies) && kernel.live == {}
    {
      result := BufferError;
      var error, granted := kernel.RequestBuffers(fd, bufferCount);
      replies := [RequestReply(bufferCount, error, granted)];
      if error == None {
        buffers := [];
        var mapped;
        ghost var later;
        mapped, later := MapAndStart(granted, bufferCount);
        if mapped {
          streaming := true;
          result := Started;
        }
        replies := replies + later;
      }
      Note(StartCall(bufferCount, result));
      strayed := {};
    }

    method StopStreaming()
      requires Valid() && Apply(use, StopCall) != Misused
      modifies this, kernel`live, kernel`queued, kernel`log
      ensures Valid() && kernel.live == {} && !streaming
      ensures calls == old(calls) + [StopCall] && use == Apply(old(use), StopCall)
      ensures kernel.log == old(kernel.log) + if old(streaming) then [StreamOffReply] else []
    {
      if streaming {
        kernel.StreamOff(fd);
        streaming := false;
      }
      UnmapBuffers();
      Note(StopCall);
    }

    method DequeueFrame(timeout: nat) returns (answer: DequeueAnswer, ghost replies: seq<Reply>)
      requires Valid() && use == Running
      modifies this`calls, this`use, clock`now, kernel`queued, kernel`log
      ensures Valid() && buffers == old(buffers)
      ensures calls == old(calls) + [DequeueCall(answer)] && use == Apply(old(use), DequeueCall(answer))
      ensures old(clock.now) <= clock.now
      ensures kernel.log == old(kernel.log) + replies && Says(replies, timeout, answer, clock.now)
      ensures replies[0].polled == PollTimedOut ==> clock.now >= old(clock.now) + timeout * NS_PER_MS
    {
      answer, replies := Poll(timeout);
      Note(DequeueCall(answer));
    }

    /** The branches of dequeue_frame. */
    method Poll(timeout: nat) returns (answer: DequeueAnswer, ghost replies: seq<Reply>)
      requires fd in kernel.fds
      modifies clock`now, kernel`queued, kernel`log
      ensures old(clock.now) <= clock.now
      ensures kernel.log == old(kernel.log) + replies && Says(replies, timeout, answer, clock.now)
      ensures replies[0].polled == PollTimedOut ==> clock.now >= old(clock.now) + timeout * NS_PER_MS
      ensures if answer.Frame? then
                var i := answer.frame.bufferIndex as nat; i < |buffers| && kernel.queued == old(kernel.queued) - {i}
              else kernel.queued == old(kernel.queued)
    {
      var polled := kernel.Poll(fd, timeout, clock);
      replies := [PollReply(timeout, polled)];
      match polled
      case PollTimedOut =>
        return Timeout, replies;
      case PollFailed(errno) =>
        return if errno == EINTR then Timeout else DequeueError, replies;
      case PollReady(gone) =>
        if gone {
          return Lost, replies;
        }
        var error, index, bytesUsed := kernel.DequeueBuffer(fd, |buffers|);
        replies := replies + [DequeueReply(error, index, bytesUsed)];
        if error == Some(EAGAIN) {
          return Timeout, replies;
        } else if error == Some(ENODEV) || error == Some(EIO) {
          return Lost, replies;
        } else if error.Some? {
          return DequeueError, replies;
        }
        var t := clock.SteadyNow();
        return Frame(FrameDescriptor(index, bytesUsed, t)), replies;
    }

    /** The buffer goes back to the driver, or strays. */
    method RequeueFrame(bufferIndex: uint32)
      requires Valid() && use == Holding(bufferIndex)
      modifies this`calls, this`use, this`strayed, kernel`queued, kernel`log
      ensures Valid()
      ensures calls == old(calls) + [RequeueCall(bufferIndex)] && use == Apply(old(use), RequeueCall(bufferIndex))
      ensures kernel.log != [] && kernel.log == old(kernel.log) + [Last(kernel.log)]
      ensures var reply := Last(kernel.log);
        && reply.QueueReply? && reply.index == bufferIndex
        && strayed == if reply.error == None then old(strayed) - {bufferIndex as nat} else old(strayed) + {bufferIndex as nat}
    {
      var error := kernel.QueueBuffer(fd, bufferIndex);
      strayed := if error == None then strayed - {bufferIndex as nat} else strayed + {bufferIndex as nat};
      Note(RequeueCall(bufferIndex));
    }
  }

  ghost function Indices(n: nat): (s: set<nat>)
    ensures forall i: nat :: i in s <==> i < n
  {
    if n == 0 then {} else Indices(n - 1) + {n - 1}
  }

  // ---- What replies mean --------------------------------------------------------------

  /** The formats listed so far are others. */
  ghost predicate PassesOver(replies: seq<Reply>, fourcc: uint32) {
    forall i :: 0 <= i < |replies| ==>
      && replies[i].EnumReply? && replies[i].position == i
      && replies[i].entry.Some? && replies[i].entry.value.fourcc != fourcc
  }

  /** The list was read up to the entry for the code, which decides, or to its end, in
      which case the code counts as compressed. */
  ghost predicate Lists(replies: seq<Reply>, fourcc: uint32, compressed: bool) {
    && replies != []
    && PassesOver(Init(replies), fourcc)
    && Last(replies).EnumReply? && Last(replies).position == |replies| - 1
    && match Last(replies).entry
       case None => compressed
       case Some(entry) => entry.fourcc == fourcc && entry.compressed == compressed
  }

  /** EINVAL alone means that no producer is there. */
  ghost predicate Describes(replies: seq<Reply>, answer: FormatAnswer) {
    && replies != [] && replies[0].FormatReply?
    && match replies[0].error
       case None =>
         && answer.Known?
         && answer.format == replies[0].format.(compressed := answer.format.compressed)
         && Lists(replies[1..], replies[0].format.pixelFormatFourcc, answer.format.compressed)
       case Some(errno) =>
         && |replies| == 1
         && answer == if errno == EINVAL then NoProducer else QueryError
  }

  predicate Fails(r: Reply) {
    match r
    case RequestReply(_, error, _) => error.Some?
    case BufferReply(_, error, _) => error.Some?
    case MapReply(_, address) => address == None
    case QueueReply(_, error) => error.Some?
    case StreamOnReply(error) => error.Some?
    case _ => false
  }

  ghost predicate NoneFails(replies: seq<Reply>) {
    forall i :: 0 <= i < |replies| ==> !Fails(replies[i])
  }

  /** Every request succeeded but the last. */
  ghost predicate EndsInFailure(replies: seq<Reply>) {
    replies != [] && Fails(Last(replies)) && NoneFails(Init(replies))
  }

  /** The replies to the requests for buffer `i` when all succeed. */
  ghost function Mapped(i: uint32, b: MappedBuffer): seq<Reply> {
    [BufferReply(i, None, b.length), MapReply(b.length, Some(b.address)), QueueReply(i, None)]
  }

  /** Each buffer in turn was queried, mapped with the length it has, and queued. */
  ghost predicate MapsInOrder(replies: seq<Reply>, buffers: seq<MappedBuffer>) {
    && |buffers| < 0x1_0000_0000 && |replies| == 3 * |buffers|
    && forall i: uint32 :: i < |buffers| ==> replies[3 * i..3 * i + 3] == Mapped(i, buffers[i])
  }

  ghost predicate StartsInOrder(replies: seq<Reply>, count: uint32, buffers: seq<MappedBuffer>) {
    && |replies| >= 2
    && replies[0].RequestReply? && replies[0].count == count && replies[0].error == None
    && replies[0].granted as nat == |buffers|
    && MapsInOrder(replies[1..|replies| - 1], buffers)
    && Last(replies) == StreamOnReply(None)
  }

  lemma {:induction false} StartsAfterRequest(
      count: uint32, granted: uint32, replies: seq<Reply>, buffers: seq<MappedBuffer>)
    requires |buffers| == granted && MapsInOrder(replies, buffers)
    ensures StartsInOrder([RequestReply(count, None, granted)] + (replies + [StreamOnReply(None)]), count, buffers)
  {
    var all := [RequestReply(count, None, granted)] + (replies + [StreamOnReply(None)]);
    assert all[1..|all| - 1] == replies;
  }

  lemma {:induction false} FailsLater(before: seq<Reply>, after: seq<Reply>)
    requires NoneFails(before) && EndsInFailure(after)
    ensures EndsInFailure(before + after)
  {
    assert Init(before + after) == before + Init(after);
  }

  lemma {:induction false} MapsWithoutFailure(replies: seq<Reply>, buffers: seq<MappedBuffer>)
    requires MapsInOrder(replies, buffers)
    ensures NoneFails(replies)
  {
    forall k | 0 <= k < |replies|
      ensures !Fails(replies[k])
    {
      var i: uint32 := k / 3;
      assert replies[k] == replies[3 * i..3 * i + 3][k - 3 * i];
      assert replies[3 * i..3 * i + 3] == Mapped(i, buffers[i]);
    }
  }

  lemma {:induction false} MapsOneMore(replies: seq<Reply>, buffers: seq<MappedBuffer>, i: uint32, b: MappedBuffer)
    requires MapsInOrder(replies, buffers) && |buffers| == i && i < 0xFFFF_FFFF
    ensures MapsInOrder(replies + Mapped(i, b), buffers + [b])
  {
    var more, all := replies + Mapped(i, b), buffers + [b];
    forall j: uint32 | j < |all|
      ensures more[3 * j..3 * j + 3] == Mapped(j, all[j])
    {
      if j < i {
        assert more[3 * j..3 * j + 3] == replies[3 * j..3 * j + 3];
      }
    }
  }

  /** How dequeue_frame sorts what the kernel replied; all else is an error. */
  ghost predicate Says(replies: seq<Reply>, timeout: nat, answer: DequeueAnswer, now: int) {
    && replies != [] && replies[0].PollReply? && replies[0].timeout == timeout
    && match replies[0].polled
       case PollTimedOut => |replies| == 1 && answer == Timeout
       case PollFailed(errno) => |replies| == 1 && answer == if errno == EINTR then Timeout else DequeueError
       case PollReady(true) => |replies| == 1 && answer == Lost
       case PollReady(false) =>
         && |replies| == 2 && replies[1].DequeueReply?
         && var r := replies[1];
            answer == match r.error
                      case None => Frame(FrameDescriptor(r.index, r.bytesUsed, now))
                      case Some(EAGAIN) => Timeout
                      case Some(ENODEV) => Lost
                      case Some(EIO) => Lost
                      case _ => DequeueError
  }

  /** The buffers are exactly the live mappings, none of them twice or at null. */
  ghost predicate Ledger(buffers: seq<MappedBuffer>, live: set<MappedBuffer>) {
    && (forall b :: b in live <==> b in buffers)
    && (forall i, j :: 0 <= i < j < |buffers| ==> buffers[i].address != buffers[j].address)
    && (forall i :: 0 <= i < |buffers| ==> buffers[i].address != 0)
  }

  lemma {:induction false} LedgerPop(buffers: seq<MappedBuffer>, live: set<MappedBuffer>)
    requires buffers != [] && Ledger(buffers, live)
    ensures buffers[0] in live && buffers[0].address != 0 && Ledger(buffers[1..], live - {buffers[0]})
  {
    forall b
      ensures b in live - {buffers[0]} <==> b in buffers[1..]
    {
      assert b in buffers <==> b == buffers[0] || b in buffers[1..];
    }
  }
}
