/**
 * A crossbeam channel seen from one thread: the messages in flight, an
 * optional capacity (`bounded(n)` or `unbounded()`), and whether a receiver
 * still exists. Other threads are not modelled; nothing drains the queue
 * between two calls made by the same thread.
 */
module Channels {
  import opened Wrappers

  /** Why `try_send` refused a message. */
  datatype TrySendError = Full | Disconnected

  class Channel<T> {
    var queue: seq<T>
    const capacity: Option<nat>
    var receiverAlive: bool

    constructor (capacity: Option<nat>)
      ensures queue == [] && this.capacity == capacity && receiverAlive
    {
      queue := [];
      this.capacity := capacity;
      receiverAlive := true;
    }

    /** A bounded channel holding as many messages as it can. */
    predicate IsFull()
      reads this
    {
      capacity.Some? && |queue| >= capacity.value
    }

    /** `receiver.is_empty()`. */
    predicate IsEmpty()
      reads this
    {
      queue == []
    }

    /**
     * `sender.try_send(x)`: a message to a channel without receivers is
     * refused as disconnected, one to a full channel as full; otherwise it is
     * appended.
     */
    method TrySend(x: T) returns (r: Option<TrySendError>)
      modifies this
      ensures receiverAlive == old(receiverAlive)
      ensures r == (if !receiverAlive then Some(Disconnected)
                    else if old(IsFull()) then Some(Full)
                    else None)
      ensures queue == if r.None? then old(queue) + [x] else old(queue)
    {
      if !receiverAlive {
        r := Some(Disconnected);
      } else if IsFull() {
        r := Some(Full);
      } else {
        queue := queue + [x];
        r := None;
      }
    }

    /**
     * `sender.send(x)`: fails only when no receiver is left. On a full bounded
     * channel the real call waits for room; the wait is not modelled and the
     * message is delivered.
     */
    method Send(x: T) returns (ok: bool)
      modifies this
      ensures receiverAlive == old(receiverAlive)
      ensures ok == receiverAlive
      ensures queue == if ok then old(queue) + [x] else old(queue)
    {
      ok := receiverAlive;
      if ok {
        queue := queue + [x];
      }
    }

    /** `receiver.try_recv()`: the oldest message, if any, removed from the queue. */
    method TryRecv() returns (r: Option<T>)
      modifies this
      ensures receiverAlive == old(receiverAlive)
      ensures r == if old(queue) == [] then None else Some(old(queue)[0])
      ensures queue == if old(queue) == [] then old(queue) else old(queue)[1..]
    {
      if queue == [] {
        r := None;
      } else {
        r := Some(queue[0]);
        queue := queue[1..];
      }
    }
  }
}
