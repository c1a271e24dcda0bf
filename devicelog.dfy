/**
 * The renderer's log panel for one device (src/components/device-log.tsx): batches from
 * the main process are buffered, a periodic flush moves the buffer into the displayed
 * lines and keeps only the newest 500, and an end of the logcat stream that the panel did
 * not ask for adds a marker line.
 */
module DeviceLog {
  import opened Window

  /** `MAX_LOG_LINES`. */
  const MaxLogLines: nat := 500

  /** The line added when the stream ends without the panel having asked for it. */
  const StoppedMarker: string := "[Logcat stopped]"

  /** The calls the panel makes to the main process. */
  datatype Request = StartLogcat(serial: string) | StopLogcat(serial: string)

  /**
   * One mounted panel. `lines` is the displayed state, `buffer` the pending batch buffer,
   * `manualStop` the flag the clean-up raises, `ticking` whether the flush interval is set,
   * `onData` and `onEnd` whether the data and the end handler are registered, and `requests`
   * the log of calls to the main process.
   */
  class DeviceLogView {
    const serial: string
    var lines: seq<string>
    var buffer: seq<string>
    var manualStop: bool
    var ticking: bool
    var onData: bool
    var onEnd: bool
    var requests: seq<Request>
    /** Every line ever moved from the buffer to the display, oldest first. */
    ghost var flushed: seq<string>

    /** The display holds the newest 500 lines ever flushed, in arrival order. */
    ghost predicate Valid()
      reads this
    {
      lines == Newest(flushed, MaxLogLines)
    }

    /** The effect's set-up: clear the flag, register the handlers, start logcat and the timer. */
    constructor Mount(serial: string)
      ensures Valid()
      ensures this.serial == serial && lines == [] && buffer == [] && flushed == []
      ensures !manualStop && ticking && onData && onEnd && requests == [StartLogcat(serial)]
    {
      this.serial := serial;
      lines := [];
      buffer := [];
      manualStop := false;
      onData := true;
      onEnd := true;
      requests := [StartLogcat(serial)];
      ticking := true;
      flushed := [];
    }

    /** `handleData`: a batch for this device is appended to the buffer; others are ignored. */
    method HandleData(s: string, batch: seq<string>)
      requires onData
      modifies this
      ensures buffer == old(buffer) + (if s == serial then batch else [])
      ensures lines == old(lines) && flushed == old(flushed) && manualStop == old(manualStop)
      ensures ticking == old(ticking) && onData == old(onData) && onEnd == old(onEnd)
      ensures requests == old(requests)
    {
      if s != serial {
        return;
      }
      buffer := buffer + batch;
    }

    /** `handleEnd`: the marker is buffered for this device, and only when the end was not asked for. */
    method HandleEnd(s: string)
      requires onEnd
      modifies this
      ensures buffer == old(buffer) + (if s == serial && !manualStop then [StoppedMarker] else [])
      ensures lines == old(lines) && flushed == old(flushed) && manualStop == old(manualStop)
      ensures ticking == old(ticking) && onData == old(onData) && onEnd == old(onEnd)
      ensures requests == old(requests)
    {
      if s != serial {
        return;
      }
      if !manualStop {
        buffer := buffer + [StoppedMarker];
      }
    }

    /**
     * The interval body: nothing happens while the buffer is empty; otherwise the whole
     * buffer is taken and the display becomes the newest 500 lines of what it showed
     * followed by what was taken.
     */
    method Flush()
      requires ticking && Valid()
      modifies this
      ensures Valid()
      ensures buffer == [] && flushed == old(flushed) + old(buffer)
      ensures old(buffer) == [] ==> lines == old(lines)
      ensures old(buffer) != [] ==> lines == Newest(old(lines) + old(buffer), MaxLogLines)
      ensures |lines| <= MaxLogLines
      ensures |old(lines) + old(buffer)| <= MaxLogLines ==> lines == old(lines) + old(buffer)
      ensures manualStop == old(manualStop) && ticking == old(ticking)
      ensures onData == old(onData) && onEnd == old(onEnd) && requests == old(requests)
    {
      if |buffer| == 0 {
        return;
      }
      var chunk := buffer;
      buffer := [];
      NewestAppend(flushed, chunk, MaxLogLines);
      if |lines + chunk| <= MaxLogLines {
        NewestKeepsAll(lines + chunk, MaxLogLines);
      }
      lines := Newest(lines + chunk, MaxLogLines);
      flushed := flushed + chunk;
    }

    /**
     * The effect's clean-up: raise the flag, stop logcat, unregister each handler when the
     * bridge offers a way to (`offLogcatData?.` and `offLogcatEnd?.` are tested separately),
     * clear the timer and empty the buffer.
     */
    method Cleanup(hasOffData: bool, hasOffEnd: bool)
      modifies this
      ensures manualStop && !ticking && buffer == []
      ensures onData == (old(onData) && !hasOffData) && onEnd == (old(onEnd) && !hasOffEnd)
      ensures requests == old(requests) + [StopLogcat(serial)]
      ensures lines == old(lines) && flushed == old(flushed)
    {
      manualStop := true;
      requests := requests + [StopLogcat(serial)];
      if hasOffData {
        onData := false;
      }
      if hasOffEnd {
        onEnd := false;
      }
      ticking := false;
      buffer := [];
    }
  }

  /**
   * A panel that receives a batch for another device, a batch for its own, and an
   * unexpected end, then flushes, shows its own batch followed by the marker.
   */
  method UnexpectedEndShowsMarker(serial: string, other: string, batch: seq<string>)
    returns (shown: seq<string>)
    requires other != serial && |batch| < MaxLogLines
    ensures shown == batch + [StoppedMarker]
  {
    var view := new DeviceLogView.Mount(serial);
    view.HandleData(other, ["from another device"]);
    view.HandleData(serial, batch);
    view.HandleEnd(serial);
    assert view.buffer == batch + [StoppedMarker];
    view.Flush();
    shown := view.lines;
  }

  /**
   * After the clean-up an end event adds no marker, even when the handlers stay
   * registered, and the lines still buffered are dropped.
   */
  method NoMarkerAfterCleanup(serial: string, batch: seq<string>) returns (buffered: seq<string>, shown: seq<string>)
    ensures buffered == [] && shown == []
  {
    var view := new DeviceLogView.Mount(serial);
    view.HandleData(serial, batch);
    view.Cleanup(false, false);
    view.HandleEnd(serial);
    buffered := view.buffer;
    shown := view.lines;
  }

  /** A long stream keeps only its newest 500 lines on screen. */
  method LongBatchIsTrimmed(serial: string, batch: seq<string>) returns (shown: seq<string>)
    requires |batch| > MaxLogLines
    ensures |shown| == MaxLogLines && shown == batch[|batch| - MaxLogLines..]
  {
    var view := new DeviceLogView.Mount(serial);
    view.HandleData(serial, batch);
    assert view.buffer == batch;
    view.Flush();
    assert [] + batch == batch;
    shown := view.lines;
  }
}
