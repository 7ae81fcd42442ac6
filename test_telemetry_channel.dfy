/**
 * The in-memory telemetry channel of the end-to-end correlation tests: every item the
 * telemetry client sends is appended to a queue, and the test later drains that queue into
 * a list before sorting the operation records.
 */
module TestTelemetry {
  import opened Wrappers

  /** A first-in first-out queue of telemetry items, seen by one thread at a time. */
  class TelemetryQueue<T> {
    var contents: seq<T>

    constructor ()
      ensures contents == []
    {
      contents := [];
    }

    predicate IsEmpty()
      reads this
      ensures IsEmpty() <==> contents == []
    {
      |contents| == 0
    }

    method Enqueue(item: T)
      modifies this
      ensures contents == old(contents) + [item]
    {
      contents := contents + [item];
    }

    /** Takes the oldest item, or reports that there is none and leaves the queue alone. */
    method TryDequeue() returns (item: Option<T>)
      modifies this
      ensures old(contents) == [] ==> item == None && contents == []
      ensures old(contents) != [] ==> item == Some(old(contents)[0]) && contents == old(contents)[1..]
    {
      if |contents| == 0 {
        return None;
      }
      item := Some(contents[0]);
      contents := contents[1..];
    }
  }

  /** A channel that only records what it is sent; flushing and disposing do nothing. */
  class TestTelemetryChannel<T> {
    const telemetryItems: TelemetryQueue<T>

    constructor ()
      ensures fresh(telemetryItems) && telemetryItems.contents == []
    {
      telemetryItems := new TelemetryQueue();
    }

    method Send(item: T)
      modifies telemetryItems
      ensures telemetryItems.contents == old(telemetryItems.contents) + [item]
    {
      telemetryItems.Enqueue(item);
    }
  }

  /**
   * Drains the queue into a list: the list holds every queued item in the order it was
   * sent, and the queue is left empty.
   */
  method ConvertTo<T>(queue: TelemetryQueue<T>) returns (converted: seq<T>)
    modifies queue
    ensures converted == old(queue.contents)
    ensures queue.contents == []
  {
    converted := [];
    while !queue.IsEmpty()
      invariant converted + queue.contents == old(queue.contents)
      decreases |queue.contents|
    {
      ghost var before := queue.contents;
      var x := queue.TryDequeue();
      if x.Some? {
        converted := converted + [x.value];
        assert converted + queue.contents == (converted[..|converted| - 1] + [before[0]]) + before[1..];
      }
    }
  }
}
