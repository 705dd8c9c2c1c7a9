/** The exported statistics (stats.hpp) and the event sink (event.hpp). */
module CaptureStatistics {
  import opened Types
  import opened CaptureSpec
  import opened Histograms

  class CaptureStats {
    var framesReceived: nat
    var bytesReceived: nat
    var captureState: nat
    var reconnects: nat
    var stalls: nat
    var lastFrameUnixtime: nat
    const frameIntervalSeconds: Histogram
    var errors: ErrorCounts
    var streamInfoKnown: bool
    var streamInfoFormat: StreamFormat

    ghost predicate Valid()
      reads this, frameIntervalSeconds
    {
      && frameIntervalSeconds.Valid()
      && frameIntervalSeconds.bounds == FRAME_INTERVAL_BUCKETS
    }

    ghost function View(): Stats
      reads this, frameIntervalSeconds
    {
      Stats(framesReceived, bytesReceived, captureState, reconnects, stalls, lastFrameUnixtime,
            frameIntervalSeconds.observations, errors,
            if streamInfoKnown then Some(streamInfoFormat) else None)
    }

    constructor ()
      ensures Valid() && fresh(frameIntervalSeconds)
      ensures View() == Stats(0, 0, DeviceAbsent.Gauge(), 0, 0, 0, [], NO_ERRORS, None)
    {
      framesReceived, bytesReceived, reconnects, stalls, lastFrameUnixtime := 0, 0, 0, 0, 0;
      captureState := DeviceAbsent.Gauge();
      errors := NO_ERRORS;
      streamInfoKnown, streamInfoFormat := false, UNSET_FORMAT;
      frameIntervalSeconds := new Histogram(FRAME_INTERVAL_BUCKETS);
    }

    method RecordError(reason: ErrorReason)
      requires Valid()
      modifies this`errors
      ensures Valid() && View() == old(View()).(errors := old(View()).errors.Plus(reason))
    {
      errors := errors.Plus(reason);
    }

    method ErrorCount(reason: ErrorReason) returns (n: nat)
      requires Valid()
      ensures n == View().errors.Of(reason)
    {
      n := errors.Of(reason);
    }

    method SetStreamInfo(format: StreamFormat)
      requires Valid()
      modifies this`streamInfoKnown, this`streamInfoFormat
      ensures Valid() && View() == old(View()).(streamInfo := Some(format))
    {
      streamInfoKnown, streamInfoFormat := true, format;
    }

    method StreamInfo() returns (known: bool, format: StreamFormat)
      requires Valid()
      ensures View().streamInfo == if known then Some(format) else None
    {
      known, format := streamInfoKnown, streamInfoFormat;
    }
  }

  /** A sink that keeps what it is sent. */
  class EventSink {
    var log: seq<Event>

    constructor ()
      ensures log == []
    {
      log := [];
    }

    method Emit(e: Event)
      modifies this
      ensures log == old(log) + [e]
    {
      log := log + [e];
    }
  }
}
