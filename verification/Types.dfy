/** The plain data of the capture daemon: formats, frames, results, events and
    configuration (capture_device.hpp, capture_state.hpp, error_reason.hpp,
    event.hpp, daemon_config.hpp).

    Points in time and elapsed times are integer nanoseconds; backoff delays
    and recommended waits are integer milliseconds, as in the daemon. */
module Types {

  datatype Option<+T> = None | Some(value: T)

  type uint32 = x: nat | x < 0x1_0000_0000

  const NS_PER_MS: nat := 1_000_000
  const NS_PER_S: nat := 1_000_000_000

  datatype StreamFormat = StreamFormat(
    width: uint32, height: uint32, pixelFormatFourcc: uint32,
    sizeImage: uint32, bytesPerLine: uint32, compressed: bool)

  /** A default-constructed format: nothing queried yet, hence taken as compressed. */
  const UNSET_FORMAT := StreamFormat(0, 0, 0, 0, 0, true)

  datatype FrameDescriptor = FrameDescriptor(bufferIndex: uint32, bytesUsed: nat, capturedAt: int)

  datatype OpenResult = Opened | Absent

  /** FormatResult together with the format it delivers. */
  datatype FormatAnswer = Known(format: StreamFormat) | NoProducer | QueryError

  datatype StreamStartResult = Started | BufferError

  /** DequeueResult together with the frame it delivers. */
  datatype DequeueAnswer = Frame(frame: FrameDescriptor) | Timeout | Lost | DequeueError

  datatype CaptureState = DeviceAbsent | AwaitingProducer | Configuring | Streaming | Stalled {
    /** The exported gauge value. */
    function Gauge(): nat {
      match this
      case DeviceAbsent => 0
      case AwaitingProducer => 1
      case Configuring => 2
      case Streaming => 3
      case Stalled => 4
    }
  }

  datatype ErrorReason = OpenFailed | FormatFailed | BufferFailed | TimedOut | DequeueFailed | DeviceGone | Geometry

  /** One counter per reason. */
  datatype ErrorCounts = ErrorCounts(
    openFailed: nat, formatFailed: nat, bufferFailed: nat, timedOut: nat,
    dequeueFailed: nat, deviceGone: nat, geometry: nat)
  {
    function Of(reason: ErrorReason): nat {
      match reason
      case OpenFailed => openFailed
      case FormatFailed => formatFailed
      case BufferFailed => bufferFailed
      case TimedOut => timedOut
      case DequeueFailed => dequeueFailed
      case DeviceGone => deviceGone
      case Geometry => geometry
    }

    function Plus(reason: ErrorReason): ErrorCounts {
      match reason
      case OpenFailed => this.(openFailed := openFailed + 1)
      case FormatFailed => this.(formatFailed := formatFailed + 1)
      case BufferFailed => this.(bufferFailed := bufferFailed + 1)
      case TimedOut => this.(timedOut := timedOut + 1)
      case DequeueFailed => this.(dequeueFailed := dequeueFailed + 1)
      case DeviceGone => this.(deviceGone := deviceGone + 1)
      case Geometry => this.(geometry := geometry + 1)
    }
  }

  datatype EventKind =
    | DeviceOpened
    | ProducerAwaited
    | StreamingStarted
    | DeviceLost
    | Reconnecting
    | StallDetected
    | StallCleared
    | FormatChanged

  /** Formats are carried by StreamingStarted and FormatChanged only, a reason by
      DeviceLost; `None` stands for the reason that is none. */
  datatype Event = Event(
    kind: EventKind, format: StreamFormat, previousFormat: StreamFormat, reason: Option<ErrorReason>)

  function PlainEvent(kind: EventKind): Event {
    Event(kind, UNSET_FORMAT, UNSET_FORMAT, None)
  }

  /** The stall threshold is taken as given, in nanoseconds: the daemon derives
      it from expected_fps and stall_multiple in floating point. */
  datatype DaemonConfig = DaemonConfig(
    expectedFps: uint32,
    stallThreshold: nat,
    bufferCount: uint32,
    reconnectInitialBackoff: nat,
    reconnectMaxBackoff: nat,
    awaitingProducerMaxBackoff: nat)

  /** The calls the state machine makes on its device, with the answers it got; a start
      says how many buffers it asks for. */
  datatype Call =
    | OpenCall(openResult: OpenResult)
    | CloseCall
    | QueryCall(answer: FormatAnswer)
    | StartCall(count: uint32, startResult: StreamStartResult)
    | StopCall
    | DequeueCall(dequeued: DequeueAnswer)
    | RequeueCall(index: uint32)

  /** One stay in Streaming: when it began and when its frames were captured. */
  datatype Session = Session(start: int, frames: seq<int>)

  function Last<T>(s: seq<T>): T
    requires s != []
  {
    s[|s| - 1]
  }

  function Init<T>(s: seq<T>): seq<T>
    requires s != []
  {
    s[..|s| - 1]
  }

  lemma {:induction false} SnocParts<T>(s: seq<T>, x: T)
    ensures Init(s + [x]) == s && Last(s + [x]) == x
  {
  }

  lemma {:induction false} Joined<T>(a: seq<T>, b: seq<T>, c: seq<T>)
    ensures a + b + c == a + (b + c)
  {
  }

  lemma {:induction false} Flat<T>(a: seq<T>, b: seq<T>, c: seq<T>, d: seq<T>)
    ensures a + (b + c + d) == a + b + c + d
  {
  }
}
