/** Go's buffered channels as used for live subscribers. */
module Channels {
  const CHANNEL_CAPACITY: nat := 100

  datatype Chan<T> = Chan(queue: seq<T>, closed: bool)

  /** What a `select` with a send case and an empty default does. */
  datatype SendResult = Delivered | Dropped | Panicked

  function TrySend<T>(c: Chan<T>): (r: SendResult) {
    if c.closed then Panicked
    else if |c.queue| < CHANNEL_CAPACITY then Delivered
    else Dropped
  }

  function AfterSend<T>(c: Chan<T>, x: T): (r: Chan<T>) {
    if TrySend(c) == Delivered then c.(queue := c.queue + [x]) else c
  }

  /** A channel shared by reference. */
  class Channel<T> {
    var queue: seq<T>
    var closed: bool

    constructor ()
      ensures queue == [] && !closed
    {
      queue := [];
      closed := false;
    }

    function Val(): (c: Chan<T>)
      reads this
    {
      Chan(queue, closed)
    }

    method Send(x: T) returns (r: SendResult)
      modifies this
      ensures r == TrySend(old(Val()))
      ensures Val() == AfterSend(old(Val()), x)
    {
      r := TrySend(Val());
      if r == Delivered {
        queue := queue + [x];
      }
    }
  }
}
