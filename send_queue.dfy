/**
 * The bounded FIFO of PCM chunks between the capture thread (producer) and
 * the broadcast loop (consumer): a `queue.Queue` whose producer offers
 * without blocking and drops the chunk when the queue is full, and whose
 * consumer takes without blocking.
 */
module SendQueue {
  import opened Wire

  /** The capacity the application gives the audio send queue. */
  const SendQueueCapacity: int := 200

  class ChunkQueue {
    /** As in `queue.Queue`, a `maxsize` of zero or less means unbounded. */
    const maxsize: int
    var items: seq<seq<Byte>>

    ghost predicate Valid()
      reads this
    {
      0 < maxsize ==> |items| <= maxsize
    }

    /** `queue.Full` is raised exactly when the queue is bounded and at capacity. */
    predicate Full()
      reads this
    {
      0 < maxsize <= |items|
    }

    constructor (maxsize: int)
      ensures Valid()
      ensures this.maxsize == maxsize && items == []
    {
      this.maxsize := maxsize;
      items := [];
    }

    /** `put_nowait`: appends at the tail, or refuses when full (the producer then drops the chunk). */
    method PutNowait(x: seq<Byte>) returns (accepted: bool)
      requires Valid()
      modifies this
      ensures Valid()
      ensures accepted == !old(Full())
      ensures items == if accepted then old(items) + [x] else old(items)
    {
      if Full() {
        accepted := false;
      } else {
        items := items + [x];
        accepted := true;
      }
    }

    /** `get_nowait`: removes and returns the head, or reports that the queue is empty. */
    method GetNowait() returns (r: Option<seq<Byte>>)
      requires Valid()
      modifies this
      ensures Valid()
      ensures old(items) == [] ==> r == None && items == []
      ensures old(items) != [] ==> r == Some(old(items)[0]) && items == old(items)[1..]
    {
      if items == [] {
        r := None;
      } else {
        r := Some(items[0]);
        items := items[1..];
      }
    }
  }

  /** The application's audio send queue: empty, bounded at `SendQueueCapacity` chunks. */
  method NewSendQueue() returns (q: ChunkQueue)
    ensures fresh(q) && q.Valid()
    ensures q.maxsize == SendQueueCapacity && q.items == []
  {
    q := new ChunkQueue(SendQueueCapacity);
  }
}
