/** The ring buffer that implements the store: a circular array with head, tail and
    count, an id-to-slot index, and subscriber channels, updated in place
    (internal/capture/store.go). Every method is proved against the store value. */
module Ring {
  import opened Basics
  import opened Entries
  import opened Store
  import opened Channels

  /** The array slot of the i-th oldest entry. */
  function Slot(head: nat, capacity: nat, i: nat): (r: nat)
    requires head < capacity && i <= capacity
    ensures r < capacity
  {
    if head + i < capacity then head + i else head + i - capacity
  }

  lemma SlotIsModulo(head: nat, capacity: nat, i: nat)
    requires head < capacity && i <= capacity
    ensures Slot(head, capacity, i) == (head + i) % capacity
  {
    if head + i >= capacity {
      ModuloOnce(head + i - capacity, capacity);
    } else {
      SmallModulo(head + i, capacity);
    }
  }

  lemma SmallModulo(x: nat, capacity: nat)
    requires x < capacity
    ensures x % capacity == x
  {
  }

  lemma ModuloOnce(x: nat, capacity: nat)
    requires x < capacity
    ensures (x + capacity) % capacity == x
  {
    assert (x + capacity) / capacity == 1;
  }

  /** Exactly the slots head .. head+count-1 (modulo the capacity) are occupied. */
  ghost predicate Occupied(slots: seq<Option<Entry>>, head: nat, count: nat) {
    && head < |slots| && count <= |slots|
    && forall i :: 0 <= i < |slots| ==> (slots[Slot(head, |slots|, i)].Some? <==> i < count)
  }

  /** Every index entry leads to an occupied slot holding that very id. */
  ghost predicate Indexed(slots: seq<Option<Entry>>, idIndex: map<EntryID, nat>) {
    forall id :: id in idIndex ==>
                   && idIndex[id] < |slots|
                   && slots[idIndex[id]].Some?
                   && slots[idIndex[id]].value.id == id
  }

  function Residents(slots: seq<Option<Entry>>, head: nat, count: nat): (q: seq<Entry>)
    requires Occupied(slots, head, count)
    ensures |q| == count
  {
    seq(count, i requires 0 <= i < count => slots[Slot(head, |slots|, i)].value)
  }

  function Resolve(slots: seq<Option<Entry>>, idIndex: map<EntryID, nat>): (m: map<EntryID, Entry>)
    requires Indexed(slots, idIndex)
  {
    map id | id in idIndex :: slots[idIndex[id]].value
  }

  /** Emptying the head slot drops the oldest entry and unlinks its id. */
  lemma EvictKeepsRing(slots: seq<Option<Entry>>, head: nat, count: nat, idIndex: map<EntryID, nat>)
    requires Occupied(slots, head, count) && Indexed(slots, idIndex) && 0 < count
    ensures var slots', head' := slots[head := None], Slot(head, |slots|, 1);
            var id := slots[Slot(head, |slots|, 0)].value.id;
            var idIndex' := idIndex - {id};
            && Occupied(slots', head', count - 1) && Indexed(slots', idIndex')
            && Residents(slots', head', count - 1) == Residents(slots, head, count)[1..]
            && Resolve(slots', idIndex') == Resolve(slots, idIndex) - {id}
  {
    var n := |slots|;
    var slots', head' := slots[head := None], Slot(head, n, 1);
    assert Slot(head, n, 0) == head;
    forall i | 0 <= i < n
      ensures slots'[Slot(head', n, i)] == if i == n - 1 then None else slots[Slot(head, n, i + 1)]
    {
      assert i < n - 1 ==> Slot(head', n, i) == Slot(head, n, i + 1);
    }
    assert Occupied(slots', head', count - 1);
  }

  /** Moving the tail on keeps it behind the newest entry. */
  lemma NextTail(head: nat, capacity: nat, count: nat)
    requires head < capacity && count < capacity
    ensures (Slot(head, capacity, count) + 1) % capacity == Slot(head, capacity, count + 1)
  {
    SlotIsModulo(Slot(head, capacity, count), capacity, 1);
  }

  /** Filling the free slot at the tail appends the entry and links its id. */
  lemma AppendKeepsRing(slots: seq<Option<Entry>>, head: nat, count: nat, idIndex: map<EntryID, nat>, e: Entry)
    requires Occupied(slots, head, count) && Indexed(slots, idIndex) && count < |slots|
    ensures var tail := Slot(head, |slots|, count);
            var slots', idIndex' := slots[tail := Some(e)], idIndex[e.id := tail];
            && Occupied(slots', head, count + 1) && Indexed(slots', idIndex')
            && Residents(slots', head, count + 1) == Residents(slots, head, count) + [e]
            && Resolve(slots', idIndex') == Resolve(slots, idIndex)[e.id := e]
  {
    var n := |slots|;
    var tail := Slot(head, n, count);
    var slots' := slots[tail := Some(e)];
    assert forall i :: 0 <= i < n && i != count ==> Slot(head, n, i) != tail;
    assert Occupied(slots', head, count + 1);
  }

  class RingBuffer {
    var buffer: array<Option<Entry>>
    var head: nat
    var tail: nat
    var count: nat
    const capacity: nat
    var idIndex: map<EntryID, nat>
    const startTime: int
    var evictions: int64
    var bytesCaptured: int64
    var subscribers: seq<Channel<Entry>>

    ghost predicate Valid()
      reads this, buffer
    {
      && buffer.Length == capacity
      && Occupied(buffer[..], head, count)
      && Indexed(buffer[..], idIndex)
      && tail == Slot(head, capacity, count)
    }

    /** Subscribed channels are pairwise different and none of them has been closed. */
    ghost predicate Subscribed()
      reads this, subscribers
    {
      Distinct(subscribers) && forall c :: c in subscribers ==> !c.closed
    }

    /** The store this ring stands for. */
    ghost function View(): (v: StoreVal)
      requires Valid()
      reads this, buffer
    {
      StoreVal(capacity, Residents(buffer[..], head, count), Resolve(buffer[..], idIndex), evictions, bytesCaptured)
    }

    constructor (capacity: int, now: int)
      ensures Valid() && Subscribed() && fresh(buffer)
      ensures View() == Empty(if capacity <= 0 then 10000 else capacity)
      ensures subscribers == [] && startTime == now
    {
      var n := if capacity <= 0 then DEFAULT_CAPACITY else capacity;
      this.capacity := n;
      buffer := new Option<Entry>[n](_ => None);
      head, tail, count := 0, 0, 0;
      idIndex := map[];
      startTime := now;
      evictions, bytesCaptured := 0, 0;
      subscribers := [];
    }

    /** Frees the head slot, to be called before an insertion that would overwrite it. */
    method EvictOldest()
      requires Valid() && 0 < count
      modifies this`head, this`count, this`idIndex, this`evictions, buffer
      ensures buffer[..] == old(buffer[..][head := None])
      ensures head == old(Slot(head, capacity, 1)) && count == old(count) - 1
      ensures Occupied(buffer[..], head, count) && Indexed(buffer[..], idIndex)
      ensures Slot(head, capacity, count) == tail
      ensures View() == Store.EvictOldest(old(View()))
    {
      EvictKeepsRing(buffer[..], head, count, idIndex);
      SlotIsModulo(head, capacity, 1);
      assert Slot(head, capacity, 0) == head;
      assert View().queue[0] == buffer[head].value;
      idIndex := idIndex - {buffer[head].value.id};
      buffer[head] := None;
      head := (head + 1) % capacity;
      count := count - 1;
      evictions := Wrap64(evictions + 1);
    }

    /** The part of Push that runs under the lock: make room, insert, snapshot the subscribers. */
    method Insert(entry: Entry, freshId: EntryID, now: int) returns (e: Entry, subs: seq<Channel<Entry>>)
      requires Valid()
      modifies this`head, this`tail, this`count, this`idIndex, this`evictions, this`bytesCaptured, buffer
      ensures Valid() && View() == Store.Insert(old(View()), e)
      ensures e == Finalize(entry, freshId, now) && subs == subscribers
    {
      hide Indexed, Resolve, Residents, Slot, EntryBytes, Wrap64;
      e := Finalize(entry, freshId, now);
      if count == capacity {
        EvictOldest();
      }
      bytesCaptured := Wrap64(bytesCaptured + EntryBytes(e));
      AppendKeepsRing(buffer[..], head, count, idIndex, e);
      NextTail(head, capacity, count);
      buffer[tail] := Some(e);
      idIndex := idIndex[e.id := tail];
      tail := (tail + 1) % capacity;
      count := count + 1;
      subs := subscribers;
    }

    /** Offers the entry to each snapshotted channel in turn. A full channel is passed over; a closed one
        stops the loop with a panic and the channels behind it get nothing. */
    static method NotifySubscribers(subs: seq<Channel<Entry>>, e: Entry) returns (sent: nat, panicked: bool)
      requires Distinct(subs)
      modifies subs
      ensures sent <= |subs| && panicked == (sent < |subs|)
      ensures forall i :: 0 <= i < sent ==> !old(subs[i].closed) && !subs[i].closed
      ensures forall i :: 0 <= i < sent ==>
                            subs[i].queue == old(subs[i].queue) + if old(|subs[i].queue|) < 100 then [e] else []
      ensures panicked ==> old(subs[sent].closed)
      ensures forall i :: sent <= i < |subs| ==> subs[i].Val() == old(subs[i].Val())
    {
      sent, panicked := 0, false;
      while sent < |subs|
        invariant sent <= |subs|
        invariant forall i :: 0 <= i < sent ==> !old(subs[i].closed) && !subs[i].closed
        invariant forall i :: 0 <= i < sent ==>
                                subs[i].queue == old(subs[i].queue) + if old(|subs[i].queue|) < 100 then [e] else []
        invariant forall i :: sent <= i < |subs| ==> subs[i].Val() == old(subs[i].Val())
      {
        var r := subs[sent].Send(e);
        if r == Panicked {
          return sent, true;
        }
        sent := sent + 1;
      }
    }

    /** Push with nothing in between its two parts: the store takes the entry, every
        subscriber is offered it, and no channel can be closed. */
    method Push(entry: Entry, freshId: EntryID, now: int) returns (panicked: bool)
      requires Valid() && Subscribed()
      modifies this`head, this`tail, this`count, this`idIndex, this`evictions, this`bytesCaptured, buffer, subscribers
      ensures !panicked && Valid() && Subscribed()
      ensures View() == Store.Insert(old(View()), Finalize(entry, freshId, now))
      ensures forall c :: c in subscribers ==>
                            c.queue == old(c.queue) +
                                       if old(|c.queue|) < 100 then [Finalize(entry, freshId, now)] else []
    {
      var e, subs := Insert(entry, freshId, now);
      var sent;
      sent, panicked := NotifySubscribers(subs, e);
    }

    method Get(id: EntryID) returns (r: Option<Entry>)
      requires Valid()
      ensures r == Lookup(View(), id)
    {
      if id !in idIndex {
        return None;
      }
      r := buffer[idIndex[id]];
    }

    /** Visits every slot from the head on; free slots add nothing. */
    method Scan(opts: ListOpts) returns (result: seq<Entry>)
      requires Valid()
      ensures result == Filter(View().queue, opts)
    {
      result := [];
      for i := 0 to capacity
        invariant result == Filter(View().queue[..if i < count then i else count], opts)
      {
        SlotIsModulo(head, capacity, i);
        var idx := (head + i) % capacity;
        assert buffer[..][Slot(head, capacity, i)] == buffer[idx];
        if i < count {
          assert View().queue[..i + 1][..i] == View().queue[..i];
          assert View().queue[i] == buffer[idx].value;
        }
        if buffer[idx].Some? && Matches(opts, buffer[idx].value) {
          result := result + [buffer[idx].value];
        }
      }
      assert View().queue[..count] == View().queue;
    }

    method List(opts: ListOpts) returns (r: seq<Entry>)
      requires Valid()
      ensures r == Store.List(View(), opts)
    {
      if count == 0 {
        return [];
      }
      var all := Scan(opts);
      r := Paginate(all, opts);
    }

    method Clear()
      requires Valid()
      modifies this`buffer, this`head, this`tail, this`count, this`idIndex
      ensures Valid() && fresh(buffer) && View() == Cleared(old(View()))
    {
      buffer := new Option<Entry>[capacity](_ => None);
      head, tail, count := 0, 0, 0;
      idIndex := map[];
    }

    method Stats() returns (count: nat, capacity: nat, evictions: int64, bytes: int64, start: int)
      requires Valid()
      ensures count == |View().queue| && capacity == View().capacity
      ensures evictions == View().evictions && bytes == View().bytesCaptured && start == startTime
    {
      return this.count, this.capacity, this.evictions, bytesCaptured, startTime;
    }

    method Subscribe() returns (ch: Channel<Entry>)
      requires Subscribed()
      modifies this`subscribers
      ensures fresh(ch) && ch.Val() == Chan([], false)
      ensures subscribers == old(subscribers) + [ch] && Subscribed()
    {
      ch := new Channel();
      subscribers := subscribers + [ch];
    }

    /** Removes and closes a subscribed channel; a channel that is not subscribed is left alone. */
    method Unsubscribe(ch: Channel<Entry>)
      requires Subscribed()
      modifies this`subscribers, ch`closed
      ensures Subscribed()
      ensures subscribers == Without(old(subscribers), ch)
      ensures ch.closed == (ch in old(subscribers) || old(ch.closed))
    {
      for i := 0 to |subscribers|
        invariant subscribers == old(subscribers) && ch.closed == old(ch.closed)
        invariant ch !in subscribers[..i]
      {
        if subscribers[i] == ch {
          WithoutSplices(subscribers, ch, i);
          subscribers := subscribers[..i] + subscribers[i + 1..];
          ch.closed := true;
          return;
        }
      }
      WithoutAbsent(subscribers, ch);
    }
  }

  /** The operations as the store sees them: a pushed entry is first given a missing id and timestamp. */
  function FinalizedOps(ops: seq<Op>, ids: seq<EntryID>, times: seq<int>): (r: seq<Op>)
    requires |ids| == |times| == |ops|
  {
    seq(|ops|, i requires 0 <= i < |ops| =>
      match ops[i] case Push(e) => Op.Push(Finalize(e, ids[i], times[i])) case Clear => Op.Clear)
  }

  lemma RunNothing(capacity: nat)
    requires 0 < capacity
    ensures Run(capacity, []) == Empty(capacity)
  {
  }

  lemma RunOneMore(capacity: nat, ops: seq<Op>, i: nat)
    requires 0 < capacity && i < |ops|
    ensures Run(capacity, ops[..i + 1]) == Apply(Run(capacity, ops[..i]), ops[i])
  {
    assert ops[..i + 1][..i] == ops[..i];
  }

  /** A ring driven through any list of pushes and clears stands for the run the theorems speak of. */
  method Replay(capacity: int, start: int, ops: seq<Op>, ids: seq<EntryID>, times: seq<int>) returns (ring: RingBuffer)
    requires |ids| == |times| == |ops|
    ensures fresh(ring) && ring.Valid()
    ensures ring.View() == Run(if capacity <= 0 then 10000 else capacity, FinalizedOps(ops, ids, times))
  {
    hide Run, Store.Insert, Occupied, Indexed, Residents, Resolve;
    ring := new RingBuffer(capacity, start);
    ghost var n := if capacity <= 0 then DEFAULT_CAPACITY else capacity;
    RunNothing(n);
    ghost var all := FinalizedOps(ops, ids, times);
    for i := 0 to |ops|
      invariant fresh(ring) && fresh(ring.buffer) && ring.Valid() && ring.subscribers == []
      invariant ring.View() == Run(n, all[..i])
    {
      RunOneMore(n, all, i);
      match ops[i] {
        case Push(e) =>
          var panicked := ring.Push(e, ids[i], times[i]);
        case Clear =>
          ring.Clear();
      }
    }
    assert all[..|ops|] == all;
  }
}
