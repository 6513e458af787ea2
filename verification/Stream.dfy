/** The event-stream handler: backfill, subscribe, forward live entries until the client goes away,
    unsubscribe, while other goroutines push, subscribe and receive on the same store
    (internal/api/handlers_sse.go). */
module Stream {
  import opened Basics
  import opened Entries
  import Store
  import Channels
  import Feed
  import FeedRuns

  datatype Frame = Data(entry: Entry) | Ping

  /** A client connection that accepts `budget` more frames and then is lost. */
  class Client {
    var sent: seq<Frame>
    var budget: nat

    constructor (budget: nat)
      ensures sent == [] && this.budget == budget
    {
      sent, this.budget := [], budget;
    }

    method Write(f: Frame) returns (ok: bool)
      modifies this
      ensures ok == (old(budget) > 0)
      ensures sent == (if ok then old(sent) + [f] else old(sent))
      ensures budget == (if ok then old(budget) - 1 else 0)
    {
      ok := budget > 0;
      if ok {
        sent, budget := sent + [f], budget - 1;
      }
    }
  }

  /** The entries among the frames a client was sent. */
  function SentEntries(frames: seq<Frame>): (r: seq<Entry>) {
    if frames == [] then []
    else
      var f := frames[|frames| - 1];
      SentEntries(frames[..|frames| - 1]) + if f.Data? then [f.entry] else []
  }

  lemma SentOneMore(frames: seq<Frame>, f: Frame)
    ensures SentEntries(frames + [f]) == if f.Data? then SentEntries(frames) + [f.entry] else SentEntries(frames)
  {
    assert (frames + [f])[..|frames|] == frames;
    assert SentEntries(frames) + [] == SentEntries(frames);
  }

  /** How many pings are among the frames. */
  function Pings(frames: seq<Frame>): (n: nat) {
    if frames == [] then 0
    else Pings(frames[..|frames| - 1]) + if frames[|frames| - 1] == Ping then 1 else 0
  }

  lemma {:induction false} FramesConcat(a: seq<Frame>, b: seq<Frame>)
    ensures SentEntries(a + b) == SentEntries(a) + SentEntries(b)
    ensures Pings(a + b) == Pings(a) + Pings(b)
  {
    if b == [] {
      assert a + b == a;
    } else {
      var front := b[..|b| - 1];
      FramesConcat(a, front);
      assert (a + b)[..|a + b| - 1] == a + front && (a + b)[|a + b| - 1] == b[|b| - 1];
    }
  }

  function DataFrames(entries: seq<Entry>): (r: seq<Frame>)
    ensures |r| == |entries|
  {
    seq(|entries|, i requires 0 <= i < |entries| => Data(entries[i]))
  }

  lemma {:induction false} SentData(entries: seq<Entry>)
    ensures SentEntries(DataFrames(entries)) == entries
  {
    if entries == [] {
    } else {
      var front := entries[..|entries| - 1];
      SentData(front);
      assert DataFrames(entries)[..|entries| - 1] == DataFrames(front);
    }
  }

  /** The first n elements, or all if there are fewer. */
  function Take<T>(s: seq<T>, n: nat): (r: seq<T>) {
    if n < |s| then s[..n] else s
  }

  /** Sends the entries in order until the connection is lost. */
  method WriteEntries(w: Client, entries: seq<Entry>) returns (ok: bool)
    modifies w
    ensures w.sent == old(w.sent) + Take(DataFrames(entries), old(w.budget))
    ensures ok == (|entries| <= old(w.budget))
    ensures w.budget == if ok then old(w.budget) - |entries| else 0
  {
    for i := 0 to |entries|
      invariant i <= old(w.budget) && w.budget == old(w.budget) - i
      invariant w.sent == old(w.sent) + DataFrames(entries)[..i]
    {
      ok := w.Write(Data(entries[i]));
      if !ok {
        return;
      }
    }
    ok := true;
  }

  // ---- The store as the goroutines share it --------------------------------

  /** The live feed with the schedule that led to its present state. */
  class SharedFeed {
    const capacity: nat
    var state: Feed.State
    ghost var steps: seq<Feed.Step>

    ghost predicate Valid()
      reads this
    {
      0 < capacity && state == Feed.At(capacity, steps, |steps|)
    }

    constructor (capacity: nat)
      requires 0 < capacity
      ensures Valid() && steps == []
    {
      this.capacity := capacity;
      state, steps := Feed.Init(capacity), [];
    }

    /** Some goroutine takes a step. */
    method Step(step: Feed.Step)
      requires Valid()
      modifies this
      ensures Valid() && steps == old(steps) + [step] && state == Feed.Next(old(state), step)
    {
      hide Feed.At, Feed.Next;
      AtOneMore(capacity, steps, step);
      state := Feed.Next(state, step);
      steps := steps + [step];
    }

    /** Others take these steps. */
    method Others(more: seq<Feed.Step>)
      requires Valid()
      modifies this
      ensures Valid() && steps == old(steps) + more
    {
      hide Feed.At, Feed.Next;
      for i := 0 to |more|
        invariant Valid() && steps == old(steps) + more[..i]
      {
        Step(more[i]);
      }
    }
  }

  /** A longer schedule passes through the same states. */
  lemma {:induction false} AtPrefix(capacity: nat, steps: seq<Feed.Step>, more: seq<Feed.Step>, n: nat)
    requires 0 < capacity && n <= |steps|
    ensures Feed.At(capacity, steps + more, n) == Feed.At(capacity, steps, n)
  {
    hide Feed.Next;
    if n == 0 {
    } else {
      AtPrefix(capacity, steps, more, n - 1);
    }
  }

  lemma AtOneMore(capacity: nat, steps: seq<Feed.Step>, step: Feed.Step)
    requires 0 < capacity
    ensures Feed.At(capacity, steps + [step], |steps| + 1) == Feed.Next(Feed.At(capacity, steps, |steps|), step)
  {
    hide Feed.Next;
    AtPrefix(capacity, steps, [step], |steps|);
  }

  // ---- What the client's channel has handed over ---------------------------

  /** The channel exists and all it handed over are pushes of the feed. */
  ghost predicate Known(s: Feed.State, c: nat) {
    c < |s.chans| && forall i :: 0 <= i < |s.chans[c].received| ==> s.chans[c].received[i] < |s.pushes|
  }

  /** The entries a channel has handed over so far. */
  ghost function Live(s: Feed.State, c: nat): (r: seq<Entry>)
    requires Known(s, c)
    ensures |r| == |s.chans[c].received|
  {
    FeedRuns.LiveEntries(s, s.chans[c].received)
  }

  lemma AlwaysKnown(s: Feed.State, c: nat)
    requires Feed.Inv(s) && c < |s.chans|
    ensures Known(s, c)
    ensures forall i :: 0 <= i < |s.chans[c].chan.queue| ==> s.chans[c].chan.queue[i] < |s.pushes|
  {
    FeedRuns.LogIsOfPushes(s, c);
    var received, queue := s.chans[c].received, s.chans[c].chan.queue;
    assert s.chans[c].Log() == received + queue;
    forall i | 0 <= i < |received| ensures received[i] < |s.pushes| {
      assert received[i] in received + queue;
    }
    forall i | 0 <= i < |queue| ensures queue[i] < |s.pushes| {
      assert queue[i] in received + queue;
    }
  }

  /** No step but a Receive takes anything from a channel. */
  lemma OtherStepTakesNothing(s: Feed.State, step: Feed.Step, c: nat)
    requires Feed.Inv(s) && c < |s.chans|
    requires step != Feed.Receive(c) || s.chans[c].chan.queue == []
    ensures var r := Feed.Next(s, step); Known(s, c) && Known(r, c) && Live(r, c) == Live(s, c)
  {
    AlwaysKnown(s, c);
    FeedRuns.StepGrows(s, step);
    ReceivedSame(s, step, c);
  }

  lemma ReceivedSame(s: Feed.State, step: Feed.Step, c: nat)
    requires Feed.WellFormed(s) && c < |s.chans|
    requires step != Feed.Receive(c) || s.chans[c].chan.queue == []
    ensures c < |Feed.Next(s, step).chans| && Feed.Next(s, step).chans[c].received == s.chans[c].received
  {
    hide Store.Insert;
  }

  /** A Receive takes the oldest queued entry. */
  lemma ReceiveTakesOldest(s: Feed.State, c: nat)
    requires Feed.Inv(s) && c < |s.chans| && s.chans[c].chan.queue != []
    ensures var r, p := Feed.Next(s, Feed.Receive(c)), s.chans[c].chan.queue[0];
            p < |s.pushes| && Known(s, c) && Known(r, c) && Live(r, c) == Live(s, c) + [s.pushes[p].entry]
  {
    AlwaysKnown(s, c);
  }

  // ---- The handler ----------------------------------------------------------

  /** What else can end a wait of the handler: its ticker, or the end of the request. */
  datatype Alarm = Tick | Cancel

  /** The handler's next wait ends the stream: the request is over, or the channel is closed and empty. */
  predicate Stops(s: Feed.State, c: nat, turns: seq<Feed.Step>, alarms: map<nat, Alarm>, i: nat)
    requires c < |s.chans| && i < |turns|
  {
    || (i in alarms && alarms[i] == Cancel)
    || (turns[i] == Feed.Receive(c) && s.chans[c].chan.queue == [] && s.chans[c].chan.closed)
  }

  /** The frame of a ping that is due before turn i. */
  function PingFrame(alarms: map<nat, Alarm>, i: nat): (r: seq<Frame>)
    ensures |r| <= 1 && SentEntries(r) == []
    ensures Pings(r) == if i in alarms && alarms[i] == Tick then 1 else 0
  {
    if i in alarms && alarms[i] == Tick then [Ping] else []
  }

  /** The frame of the entry that turn i takes from channel c. */
  function EntryFrame(s: Feed.State, c: nat, turn: Feed.Step): (r: seq<Frame>)
    requires Feed.Inv(s) && c < |s.chans|
    ensures |r| <= 1 && |SentEntries(r)| == |r| && Pings(r) == 0
  {
    if turn == Feed.Receive(c) && s.chans[c].chan.queue != [] then
      AlwaysKnown(s, c);
      [Data(s.pushes[s.chans[c].chan.queue[0]].entry)]
    else []
  }

  /** The frames due from turn i on, the feed being in state s: pings and entries as they come, up to
      the end of the stream. */
  ghost function LiveFrames(s: Feed.State, c: nat, turns: seq<Feed.Step>, alarms: map<nat, Alarm>, i: nat)
    : (r: seq<Frame>)
    requires Feed.Inv(s) && c < |s.chans| && i <= |turns|
    decreases |turns| - i
  {
    if i == |turns| then []
    else if Stops(s, c, turns, alarms, i) then PingFrame(alarms, i)
    else
      Feed.NextKeeps(s, turns[i]);
      FeedRuns.StepGrows(s, turns[i]);
      PingFrame(alarms, i) + EntryFrame(s, c, turns[i]) + LiveFrames(Feed.Next(s, turns[i]), c, turns, alarms, i + 1)
  }

  lemma LiveFramesStep(s: Feed.State, c: nat, turns: seq<Feed.Step>, alarms: map<nat, Alarm>, i: nat)
    requires Feed.Inv(s) && c < |s.chans| && i < |turns| && !Stops(s, c, turns, alarms, i)
    ensures var r := Feed.Next(s, turns[i]);
            && Feed.Inv(r) && c < |r.chans|
            && LiveFrames(s, c, turns, alarms, i) ==
               PingFrame(alarms, i) + EntryFrame(s, c, turns[i]) + LiveFrames(r, c, turns, alarms, i + 1)
  {
    hide Feed.Next;
    Feed.NextKeeps(s, turns[i]);
    FeedRuns.StepGrows(s, turns[i]);
  }

  lemma LiveFramesEnd(s: Feed.State, c: nat, turns: seq<Feed.Step>, alarms: map<nat, Alarm>, i: nat)
    requires Feed.Inv(s) && c < |s.chans| && i <= |turns| && (i < |turns| ==> Stops(s, c, turns, alarms, i))
    ensures LiveFrames(s, c, turns, alarms, i) == if i < |turns| then PingFrame(alarms, i) else []
  {
  }

  /** The turn before which the stream ends: the request is over, or the handler meets its channel closed and
      empty; the number of turns if it does not end. */
  ghost function EndOf(s: Feed.State, c: nat, turns: seq<Feed.Step>, alarms: map<nat, Alarm>, i: nat): (e: nat)
    requires Feed.Inv(s) && c < |s.chans| && i <= |turns|
    ensures i <= e <= |turns|
    decreases |turns| - i
  {
    if i == |turns| then i
    else if i in alarms && alarms[i] == Cancel then i
    else if turns[i] == Feed.Receive(c) && s.chans[c].chan == Channels.Chan([], true) then i
    else
      Feed.NextKeeps(s, turns[i]);
      FeedRuns.StepGrows(s, turns[i]);
      EndOf(Feed.Next(s, turns[i]), c, turns, alarms, i + 1)
  }

  lemma EndOfStep(s: Feed.State, c: nat, turns: seq<Feed.Step>, alarms: map<nat, Alarm>, i: nat)
    requires Feed.Inv(s) && c < |s.chans| && i <= |turns|
    ensures i == |turns| || Stops(s, c, turns, alarms, i) ==> EndOf(s, c, turns, alarms, i) == i
    ensures i < |turns| && !Stops(s, c, turns, alarms, i) ==>
              var r := Feed.Next(s, turns[i]);
              && Feed.Inv(r) && c < |r.chans|
              && EndOf(s, c, turns, alarms, i) == EndOf(r, c, turns, alarms, i + 1)
  {
    hide Feed.Next;
    if i < |turns| {
      Feed.NextKeeps(s, turns[i]);
      FeedRuns.StepGrows(s, turns[i]);
    }
  }

  /** The feed after turns i up to j. */
  ghost function Played(s: Feed.State, turns: seq<Feed.Step>, i: nat, j: nat): (r: Feed.State)
    requires Feed.Inv(s) && i <= j <= |turns|
    ensures Feed.Inv(r) && |s.chans| <= |r.chans|
    decreases j - i
  {
    if i == j then s
    else
      Feed.NextKeeps(s, turns[i]);
      FeedRuns.StepGrows(s, turns[i]);
      Played(Feed.Next(s, turns[i]), turns, i + 1, j)
  }

  /** Ticks that go off before turns i up to j. */
  function Ticks(alarms: map<nat, Alarm>, i: nat, j: nat): (n: nat)
    requires i <= j
    decreases j - i
  {
    if i == j then 0 else (if i in alarms && alarms[i] == Tick then 1 else 0) + Ticks(alarms, i + 1, j)
  }

  /** The frames due, exactly: one ping for each tick up to the end of the stream, each entry the channel
      hands over until then, once and in order, and nothing that comes later. */
  lemma {:induction false} LiveFramesExactly(
    s: Feed.State, c: nat, turns: seq<Feed.Step>, alarms: map<nat, Alarm>, i: nat)
    requires Feed.Inv(s) && c < |s.chans| && i <= |turns|
    ensures var due, e := LiveFrames(s, c, turns, alarms, i), EndOf(s, c, turns, alarms, i);
            && Pings(due) == Ticks(alarms, i, if e < |turns| then e + 1 else e)
            && Known(s, c) && Known(Played(s, turns, i, e), c)
            && Live(Played(s, turns, i, e), c) == Live(s, c) + SentEntries(due)
    decreases |turns| - i
  {
    hide Feed.Next, FeedRuns.LiveEntries, Live, SentEntries, Pings, Stops, LiveFrames, EndOf;
    AlwaysKnown(s, c);
    EndOfStep(s, c, turns, alarms, i);
    if i == |turns| || Stops(s, c, turns, alarms, i) {
      LiveFramesEnd(s, c, turns, alarms, i);
      NoFrames();
      assert Live(s, c) + [] == Live(s, c);
    } else {
      var r, e := Feed.Next(s, turns[i]), EndOf(s, c, turns, alarms, i);
      LiveFramesStep(s, c, turns, alarms, i);
      LiveFramesExactly(r, c, turns, alarms, i + 1);
      TurnTakes(s, c, turns[i]);
      var ping, entry, rest :=
        PingFrame(alarms, i), EntryFrame(s, c, turns[i]), LiveFrames(r, c, turns, alarms, i + 1);
      FramesConcat(ping, entry);
      FramesConcat(ping + entry, rest);
      var before, now, later := Live(s, c), SentEntries(entry), SentEntries(rest);
      assert before + (now + later) == (before + now) + later;
      assert [] + SentEntries(entry) == SentEntries(entry);
    }
  }

  lemma NoFrames()
    ensures SentEntries([]) == [] && Pings([]) == 0
  {
  }

  /** Where the frames due are cut off when not all of the next ones fit. */
  lemma CutHere(
    sent: seq<Frame>, next: seq<Frame>, rest: seq<Frame>, before: seq<Frame>, due: seq<Frame>, left: nat, budget: nat)
    requires sent + (next + rest) == before + due && |sent| + left == |before| + budget && left < |next|
    ensures |due| > budget && sent + Take(next, left) == before + Take(due, budget)
  {
    assert sent + Take(next, left) == (before + due)[..|sent| + left];
  }

  lemma NotCutHere(sent: seq<Frame>, next: seq<Frame>, rest: seq<Frame>, left: nat)
    requires |next| <= left
    ensures sent + Take(next, left) + rest == sent + (next + rest) && |sent + Take(next, left)| == |sent| + |next|
  {
  }

  lemma NothingTaken(sent: seq<Frame>, next: seq<Frame>, left: nat)
    requires left < |next| <= 1
    ensures sent + Take(next, left) == sent
  {
  }

  lemma OneEntry(e: Entry)
    ensures SentEntries([Data(e)]) == [e]
  {
    SentOneMore([], Data(e));
    assert [] + [Data(e)] == [Data(e)];
  }

  lemma NothingSent(live: seq<Entry>)
    ensures live + SentEntries([]) == live
  {
  }

  /** What one turn takes from the channel is what it adds to the entries handed over. */
  lemma TurnTakes(s: Feed.State, c: nat, turn: Feed.Step)
    requires Feed.Inv(s) && c < |s.chans|
    ensures var r := Feed.Next(s, turn);
            Known(s, c) && Known(r, c) && Live(r, c) == Live(s, c) + SentEntries(EntryFrame(s, c, turn))
  {
    hide Feed.Next, Feed.Inv, Known, Live;
    if turn == Feed.Receive(c) && s.chans[c].chan.queue != [] {
      ReceiveTakesOldest(s, c);
      OneEntry(s.pushes[s.chans[c].chan.queue[0]].entry);
    } else {
      OtherStepTakesNothing(s, turn, c);
      NothingSent(Live(s, c));
    }
  }

  /** Writes at most one frame. */
  method WriteFrame(w: Client, frames: seq<Frame>) returns (ok: bool)
    requires |frames| <= 1
    modifies w
    ensures ok == (|frames| <= old(w.budget))
    ensures w.sent == (if ok then old(w.sent) + frames else old(w.sent))
    ensures w.budget == if ok then old(w.budget) - |frames| else 0
  {
    ok := true;
    if frames != [] {
      ok := w.Write(frames[0]);
    }
  }

  /** All that was due has been sent, except that the entry whose write failed is missing. */
  ghost predicate AllSent(sent: seq<Entry>, due: seq<Entry>, lost: bool) {
    sent <= due && |due| <= |sent| + (if lost then 1 else 0)
  }

  lemma SentAppend(frames: seq<Frame>, more: seq<Frame>)
    requires |more| <= 1
    ensures SentEntries(frames + more) == SentEntries(frames) + SentEntries(more)
  {
    if more == [] {
      assert frames + more == frames;
    } else {
      SentOneMore(frames, more[0]);
      SentOneMore([], more[0]);
      assert [] + more == more == [more[0]];
    }
  }

  /** One round of the handler: a ping if one is due, then the turn, which may take an entry to forward. */
  method StreamSelect(feed: SharedFeed, w: Client, c: nat, ping: seq<Frame>, turn: Feed.Step)
    returns (taken: bool, ok: bool)
    requires feed.Valid() && Feed.Inv(feed.state) && c < |feed.state.chans| && Known(feed.state, c)
    requires |ping| <= 1 && SentEntries(ping) == []
    modifies feed, w
    ensures feed.Valid() && Known(feed.state, c) && taken == (|ping| <= old(w.budget)) && (ok ==> taken)
    ensures feed.steps == old(feed.steps) + if taken then [turn] else []
    ensures feed.state == if taken then Feed.Next(old(feed.state), turn) else old(feed.state)
    ensures var frames := ping + EntryFrame(old(feed.state), c, turn);
            && ok == (|frames| <= old(w.budget))
            && w.sent == old(w.sent) + Take(frames, old(w.budget))
            && w.budget == if ok then old(w.budget) - |frames| else 0
    ensures old(Live(feed.state, c)) <= Live(feed.state, c)
    ensures AllSent(SentEntries(w.sent),
                    old(SentEntries(w.sent)) + Live(feed.state, c)[|old(Live(feed.state, c))|..], !ok)
  {
    hide Feed.Next, Feed.At, Feed.Inv, SentEntries, FeedRuns.LiveEntries, EntryFrame;
    var entry := EntryFrame(feed.state, c, turn);
    SentAppend(w.sent, ping);
    ok := WriteFrame(w, ping);
    if !ok {
      return false, false;
    }
    TurnTakes(feed.state, c, turn);
    taken := true;
    feed.Step(turn);
    SentAppend(w.sent, entry);
    ok := WriteFrame(w, entry);
  }

  /** Forwards live entries until the client cancels, the channel is closed or a write fails. `turns` is
      what happens meanwhile, in order: steps of other goroutines, and the Receives on channel c, which
      are the handler's own. `alarms` says before which of them an alarm goes off. `k` turns are taken. */
  method StreamLoop(feed: SharedFeed, w: Client, c: nat, turns: seq<Feed.Step>, alarms: map<nat, Alarm>)
    returns (k: nat, lost: bool)
    requires feed.Valid() && Feed.Inv(feed.state) && c < |feed.state.chans| && feed.state.chans[c].received == []
    modifies feed, w
    ensures feed.Valid() && k <= |turns| && feed.steps == old(feed.steps) + turns[..k] && Known(feed.state, c)
    ensures var e := EndOf(old(feed.state), c, turns, alarms, 0); k <= e && (!lost ==> k == e)
    ensures lost <==> |LiveFrames(old(feed.state), c, turns, alarms, 0)| > old(w.budget)
    ensures w.sent == old(w.sent) + Take(LiveFrames(old(feed.state), c, turns, alarms, 0), old(w.budget))
    ensures AllSent(SentEntries(w.sent), old(SentEntries(w.sent)) + Live(feed.state, c), lost)
  {
    hide Feed.Next, Feed.At, Feed.Inv, SentEntries, FeedRuns.LiveEntries, Live;
    hide LiveFrames, EntryFrame, PingFrame, Stops, EndOf, Take;
    ghost var before, due := SentEntries(w.sent), LiveFrames(feed.state, c, turns, alarms, 0);
    k, lost := 0, false;
    AlwaysKnown(feed.state, c);
    while k < |turns| && !Stops(feed.state, c, turns, alarms, k)
      invariant k <= |turns| && feed.Valid() && feed.steps == old(feed.steps) + turns[..k]
      invariant Feed.Inv(feed.state) && Known(feed.state, c)
      invariant w.sent + LiveFrames(feed.state, c, turns, alarms, k) == old(w.sent) + due
      invariant |w.sent| + w.budget == |old(w.sent)| + old(w.budget)
      invariant SentEntries(w.sent) == before + Live(feed.state, c)
      invariant EndOf(feed.state, c, turns, alarms, k) == EndOf(old(feed.state), c, turns, alarms, 0)
    {
      EndOfStep(feed.state, c, turns, alarms, k);
      LiveFramesStep(feed.state, c, turns, alarms, k);
      ghost var frames := PingFrame(alarms, k) + EntryFrame(feed.state, c, turns[k]);
      ghost var rest := LiveFrames(Feed.Next(feed.state, turns[k]), c, turns, alarms, k + 1);
      ghost var sent, left := w.sent, w.budget;
      var taken, ok := StreamSelect(feed, w, c, PingFrame(alarms, k), turns[k]);
      if taken {
        k := k + 1;
      }
      if !ok {
        CutHere(sent, frames, rest, old(w.sent), due, left, old(w.budget));
        return k, true;
      }
      NotCutHere(sent, frames, rest, left);
    }
    EndOfStep(feed.state, c, turns, alarms, k);
    LiveFramesEnd(feed.state, c, turns, alarms, k);
    TakeAll(due, old(w.budget));
    if k < |turns| {
      var ping := PingFrame(alarms, k);
      SentAppend(w.sent, ping);
      assert ping + [] == ping;
      if |ping| > w.budget {
        CutHere(w.sent, ping, [], old(w.sent), due, w.budget, old(w.budget));
        NothingTaken(w.sent, ping, w.budget);
      }
      var ok := WriteFrame(w, ping);
      lost := !ok;
    }
  }

  method BackfillSse(feed: SharedFeed, w: Client, backfill: int) returns (ok: bool)
    modifies w
    ensures w.sent == old(w.sent) + Take(DataFrames(Store.Backfill(feed.state.store, backfill)), old(w.budget))
    ensures ok == (|Store.Backfill(feed.state.store, backfill)| <= old(w.budget))
    ensures ok ==> w.budget == old(w.budget) - |Store.Backfill(feed.state.store, backfill)|
  {
    if backfill <= 0 {
      assert DataFrames([]) == [];
      return true;
    }
    var history := Store.List(feed.state.store, Store.ALL.(limit := backfill));
    ok := WriteEntries(w, history);
  }

  /** Others take these steps; only a Receive on channel c takes anything from it. */
  method LetOthers(feed: SharedFeed, more: seq<Feed.Step>, c: nat)
    requires feed.Valid() && Feed.Inv(feed.state) && Known(feed.state, c)
    modifies feed
    ensures feed.Valid() && Feed.Inv(feed.state) && feed.steps == old(feed.steps) + more
    ensures Known(feed.state, c) && old(Live(feed.state, c)) <= Live(feed.state, c)
    ensures Feed.Receive(c) !in more ==> Live(feed.state, c) == old(Live(feed.state, c))
  {
    hide Feed.Next, Feed.At, Feed.Inv, FeedRuns.LiveEntries, Live, SentEntries;
    for i := 0 to |more|
      invariant feed.Valid() && Feed.Inv(feed.state) && feed.steps == old(feed.steps) + more[..i]
      invariant Known(feed.state, c) && old(Live(feed.state, c)) <= Live(feed.state, c)
      invariant Feed.Receive(c) !in more ==> Live(feed.state, c) == old(Live(feed.state, c))
    {
      TurnTakes(feed.state, c, more[i]);
      if more[i] != Feed.Receive(c) {
        OtherStepTakesNothing(feed.state, more[i], c);
      }
      feed.Step(more[i]);
      Feed.InvAlways(feed.capacity, feed.steps, |feed.steps|);
    }
  }

  /** The steps of the live half of a session on channel c. */
  ghost function LiveSteps(live: seq<Feed.Step>, late: seq<Feed.Step>, c: nat): (r: seq<Feed.Step>) {
    [Feed.Subscribe] + live + late + [Feed.Unsubscribe(c)]
  }

  /** The live half of a session: subscribe, forward, unsubscribe; between the last two others may take the
      steps of `late`. */
  method StreamLive(
    feed: SharedFeed, w: Client, turns: seq<Feed.Step>, alarms: map<nat, Alarm>, late: seq<Feed.Step>)
    returns (k: nat, lost: bool)
    requires feed.Valid() && Feed.Inv(feed.state)
    modifies feed, w
    ensures var c := |old(feed.state.chans)|;
            && feed.Valid() && k <= |turns|
            && feed.steps == old(feed.steps) + LiveSteps(turns[..k], late, c)
            && Known(feed.state, c) && feed.state.chans[c].chan.closed && c !in feed.state.subscribers
            && SentEntries(w.sent) <= old(SentEntries(w.sent)) + Live(feed.state, c)
            && (Feed.Receive(c) !in late ==>
                  AllSent(SentEntries(w.sent), old(SentEntries(w.sent)) + Live(feed.state, c), lost))
    ensures var c, s := |old(feed.state.chans)|, Feed.Next(old(feed.state), Feed.Subscribe);
            && Feed.Inv(s) && c < |s.chans|
            && (lost <==> |LiveFrames(s, c, turns, alarms, 0)| > old(w.budget))
            && w.sent == old(w.sent) + Take(LiveFrames(s, c, turns, alarms, 0), old(w.budget))
            && k <= EndOf(s, c, turns, alarms, 0) && (!lost ==> k == EndOf(s, c, turns, alarms, 0))
  {
    hide Feed.Next, Feed.Inv, Feed.At, FeedRuns.LiveEntries, LiveFrames, EndOf, SentEntries, Live, Take;
    var c := |feed.state.chans|;
    SubscribeOpens(feed.state);
    feed.Step(Feed.Subscribe);
    Feed.InvAlways(feed.capacity, feed.steps, |feed.steps|);
    k, lost := StreamLoop(feed, w, c, turns, alarms);
    Feed.InvAlways(feed.capacity, feed.steps, |feed.steps|);
    LetOthers(feed, late, c);
    OtherStepTakesNothing(feed.state, Feed.Unsubscribe(c), c);
    UnsubscribeCloses(feed.state, c);
    feed.Step(Feed.Unsubscribe(c));
  }

  /** The frames a session owes its client: the backfill read at step `list`, then what happens on
      channel c from the state after step `sub` on. */
  ghost function DueFrames(
    capacity: nat, steps: seq<Feed.Step>, list: nat, sub: nat, backfill: int,
    turns: seq<Feed.Step>, alarms: map<nat, Alarm>): (r: seq<Frame>)
    requires 0 < capacity && list < sub < |steps| && steps[sub] == Feed.Subscribe
  {
    Feed.InvAlways(capacity, steps, sub + 1);
    FeedRuns.StepGrows(Feed.At(capacity, steps, sub), steps[sub]);
    var c := FeedRuns.ClientChan(capacity, steps, sub);
    DataFrames(FeedRuns.BackfillSent(capacity, steps, list, backfill)) +
    LiveFrames(Feed.At(capacity, steps, sub + 1), c, turns, alarms, 0)
  }

  /** The turn before which the live half of the session ends. */
  ghost function SessionEnd(
    capacity: nat, steps: seq<Feed.Step>, sub: nat, turns: seq<Feed.Step>, alarms: map<nat, Alarm>): (e: nat)
    requires 0 < capacity && sub < |steps| && steps[sub] == Feed.Subscribe
  {
    Feed.InvAlways(capacity, steps, sub + 1);
    FeedRuns.StepGrows(Feed.At(capacity, steps, sub), steps[sub]);
    EndOf(Feed.At(capacity, steps, sub + 1), FeedRuns.ClientChan(capacity, steps, sub), turns, alarms, 0)
  }

  /** What holds when a session that got as far as subscribing is over: its channel is closed and off the
      list, and unless somebody else took from it at the end, all it handed over was sent. */
  ghost predicate SessionDone(
    capacity: nat, steps: seq<Feed.Step>, list: nat, sub: nat, backfill: int, sent: seq<Entry>, lost: bool,
    late: seq<Feed.Step>)
    requires 0 < capacity && list < sub < |steps|
  {
    var s, c := Feed.At(capacity, steps, |steps|), FeedRuns.ClientChan(capacity, steps, sub);
    && FeedRuns.StreamClient(steps, list, sub, |steps|)
    && Known(s, c) && s.chans[c].chan.closed && c !in s.subscribers
    && var due := FeedRuns.BackfillSent(capacity, steps, list, backfill) + Live(s, c);
       sent <= due && (Feed.Receive(c) !in late ==> AllSent(sent, due, lost))
  }

  /** A schedule in which the handler lists, subscribes and unsubscribes channel c. */
  ghost function SessionSteps(
    before: seq<Feed.Step>, gap: seq<Feed.Step>, live: seq<Feed.Step>, late: seq<Feed.Step>, c: nat)
    : (r: seq<Feed.Step>)
  {
    before + [Feed.Read] + gap + LiveSteps(live, late, c)
  }

  lemma SessionStepsAt(
    before: seq<Feed.Step>, gap: seq<Feed.Step>, live: seq<Feed.Step>, late: seq<Feed.Step>, c: nat)
    ensures var r, sub := SessionSteps(before, gap, live, late, c), |before| + 1 + |gap|;
            && before + [Feed.Read] <= r && before + [Feed.Read] + gap <= r && before <= r
            && sub < |r| && r[|before|] == Feed.Read && r[sub] == Feed.Subscribe
  {
  }

  /** A whole session of a new client, in any schedule. The handler reads the backfill, while it is written
      others take the steps of `gap`, it subscribes, forwards what its channel gives it during `turns`,
      of which `k` are taken, and after the steps of `late` unsubscribes. The client is sent the frames due,
      cut off only where its connection is lost: the backfill followed by every entry its channel handed
      over, and no entry twice if no two pushes carry the same. */
  method StreamRequests(
    feed: SharedFeed, w: Client, backfill: int,
    gap: seq<Feed.Step>, turns: seq<Feed.Step>, alarms: map<nat, Alarm>, late: seq<Feed.Step>)
    returns (ghost sub: Option<nat>, k: nat, lost: bool)
    requires feed.Valid() && w.sent == []
    modifies feed, w
    ensures feed.Valid() && old(feed.steps) + [Feed.Read] <= feed.steps
    ensures var history := FeedRuns.BackfillSent(feed.capacity, feed.steps, |old(feed.steps)|, backfill);
            && (sub.Some? <==> |history| <= old(w.budget))
            && (sub.None? ==> lost && w.sent == Take(DataFrames(history), old(w.budget)))
    ensures sub.None? ==> feed.steps == old(feed.steps) + [Feed.Read]
    ensures sub.Some? ==>
              && sub.value == |old(feed.steps)| + 1 + |gap| < |feed.steps| && k <= |turns|
              && var c := FeedRuns.ClientChan(feed.capacity, feed.steps, sub.value);
                 feed.steps == SessionSteps(old(feed.steps), gap, turns[..k], late, c)
    ensures sub.Some? ==>
              && feed.steps[sub.value] == Feed.Subscribe
              && var due := DueFrames(feed.capacity, feed.steps, |old(feed.steps)|, sub.value, backfill, turns, alarms);
                 var end := SessionEnd(feed.capacity, feed.steps, sub.value, turns, alarms);
                 && (lost <==> |due| > old(w.budget)) && w.sent == Take(due, old(w.budget))
                 && k <= end && (!lost ==> k == end)
    ensures sub.Some? ==> SessionDone(feed.capacity, feed.steps, |old(feed.steps)|, sub.value, backfill,
                                      SentEntries(w.sent), lost, late)
    ensures FeedRuns.EntriesDistinct(feed.state) ==> Distinct(SentEntries(w.sent))
  {
    hide Feed.Next, Feed.Inv, Feed.At, Store.Backfill, FeedRuns.LiveEntries, Live, DueFrames, LiveFrames, SentEntries;
    hide SessionSteps, LiveSteps, AllSent, SessionDone, SessionEnd, EndOf, Take, DataFrames;
    ghost var list := |feed.steps|;
    sub, k, lost := None, 0, true;
    ghost var history := Store.Backfill(feed.state.store, backfill);
    SentData(history);
    SentData(Take(history, w.budget));
    TakeData(history, w.budget);
    ReadChangesNothing(feed.state);
    feed.Step(Feed.Read);
    ghost var reading := feed.steps;
    var ok := BackfillSse(feed, w, backfill);
    if !ok {
      AtStable(feed.capacity, old(feed.steps), reading, list);
      SentBackfillOnce(feed.capacity, reading, list, backfill, old(w.budget));
      return;
    }
    TakeAll(DataFrames(history), old(w.budget));
    assert w.sent == DataFrames(history);
    feed.Others(gap);
    ghost var gone, start := feed.steps, feed.state;
    sub := Some(|gone|);
    Feed.InvAlways(feed.capacity, feed.steps, |feed.steps|);
    k, lost := StreamLive(feed, w, turns, alarms, late);
    SessionIs(old(feed.steps), gap, turns[..k], late, |start.chans|, gone, feed.steps);
    SessionStepsAt(old(feed.steps), gap, turns[..k], late, |start.chans|);
    AtStable(feed.capacity, old(feed.steps), feed.steps, list);
    AtStable(feed.capacity, gone, feed.steps, |gone|);
    DueIs(feed.capacity, feed.steps, list, sub.value, backfill, turns, alarms);
    SubscribeOpens(start);
    TakeConcat(DataFrames(history), LiveFrames(Feed.Next(start, Feed.Subscribe), |start.chans|, turns, alarms, 0),
               old(w.budget));
    SessionIsDone(feed.capacity, feed.steps, list, sub.value, backfill, SentEntries(w.sent), lost, late);
    SessionSentOnce(feed.capacity, feed.steps, list, sub.value, backfill, SentEntries(w.sent), lost, late);
  }

  lemma SessionIsDone(
    capacity: nat, steps: seq<Feed.Step>, list: nat, sub: nat, backfill: int, sent: seq<Entry>, lost: bool,
    late: seq<Feed.Step>)
    requires 0 < capacity && list < sub < |steps| && steps[list] == Feed.Read && steps[sub] == Feed.Subscribe
    requires var s, c := Feed.At(capacity, steps, |steps|), FeedRuns.ClientChan(capacity, steps, sub);
             && Known(s, c) && s.chans[c].chan.closed && c !in s.subscribers
             && var due := Store.Backfill(Feed.At(capacity, steps, list).store, backfill) + Live(s, c);
                sent <= due && (Feed.Receive(c) !in late ==> AllSent(sent, due, lost))
    ensures SessionDone(capacity, steps, list, sub, backfill, sent, lost, late)
  {
    hide Feed.At, Live;
  }

  lemma TakeData(entries: seq<Entry>, n: nat)
    ensures Take(DataFrames(entries), n) == DataFrames(Take(entries, n))
  {
  }

  lemma SessionIs(
    before: seq<Feed.Step>, gap: seq<Feed.Step>, live: seq<Feed.Step>, late: seq<Feed.Step>, c: nat,
    gone: seq<Feed.Step>, steps: seq<Feed.Step>)
    requires gone == before + [Feed.Read] + gap
    requires steps == gone + LiveSteps(live, late, c)
    ensures steps == SessionSteps(before, gap, live, late, c)
  {
  }

  lemma DueIs(
    capacity: nat, steps: seq<Feed.Step>, list: nat, sub: nat, backfill: int,
    turns: seq<Feed.Step>, alarms: map<nat, Alarm>)
    requires 0 < capacity && list < sub < |steps| && steps[sub] == Feed.Subscribe
    ensures var s := Feed.At(capacity, steps, sub);
            var r := Feed.Next(s, Feed.Subscribe);
            && Feed.Inv(r) && |s.chans| < |r.chans|
            && DueFrames(capacity, steps, list, sub, backfill, turns, alarms) ==
               DataFrames(Store.Backfill(Feed.At(capacity, steps, list).store, backfill)) +
               LiveFrames(r, |s.chans|, turns, alarms, 0)
            && SessionEnd(capacity, steps, sub, turns, alarms) == EndOf(r, |s.chans|, turns, alarms, 0)
  {
    hide Feed.Next, LiveFrames, EndOf, Store.Backfill;
    Feed.InvAlways(capacity, steps, sub + 1);
    FeedRuns.StepGrows(Feed.At(capacity, steps, sub), steps[sub]);
    assert Feed.At(capacity, steps, sub + 1) == Feed.Next(Feed.At(capacity, steps, sub), Feed.Subscribe);
  }

  /** No client is sent an entry twice. */
  lemma SessionSentOnce(
    capacity: nat, steps: seq<Feed.Step>, list: nat, sub: nat, backfill: int, sent: seq<Entry>, lost: bool,
    late: seq<Feed.Step>)
    requires 0 < capacity && list < sub < |steps|
    requires SessionDone(capacity, steps, list, sub, backfill, sent, lost, late)
    ensures FeedRuns.EntriesDistinct(Feed.At(capacity, steps, |steps|)) ==> Distinct(sent)
  {
    hide Feed.At, FeedRuns.BackfillSent, FeedRuns.LiveEntries;
    if FeedRuns.EntriesDistinct(Feed.At(capacity, steps, |steps|)) {
      FeedRuns.ClientSentOnce(capacity, steps, list, sub, |steps|, backfill);
    }
  }

  lemma TakeAll<T>(s: seq<T>, n: nat)
    ensures |s| <= n ==> Take(s, n) == s
  {
  }

  lemma TakeConcat<T>(a: seq<T>, b: seq<T>, n: nat)
    ensures Take(a + b, n) == if n < |a| then Take(a, n) else a + Take(b, n - |a|)
  {
  }

  lemma ReadChangesNothing(s: Feed.State)
    requires Feed.WellFormed(s)
    ensures Feed.Next(s, Feed.Read) == s
  {
  }

  lemma SubscribeOpens(s: Feed.State)
    requires Feed.WellFormed(s)
    ensures var r := Feed.Next(s, Feed.Subscribe); |s.chans| < |r.chans| && r.chans[|s.chans|].received == []
  {
  }

  lemma UnsubscribeCloses(s: Feed.State, c: nat)
    requires Feed.Inv(s) && c < |s.chans|
    ensures var r := Feed.Next(s, Feed.Unsubscribe(c));
            c < |r.chans| && r.chans[c].chan.closed && c !in r.subscribers
  {
    Feed.NextKeeps(s, Feed.Unsubscribe(c));
    FeedRuns.StepSubscribers(s, Feed.Unsubscribe(c), c);
    FeedRuns.StepGrows(s, Feed.Unsubscribe(c));
  }

  /** The states a longer schedule passes through first. */
  lemma AtStable(capacity: nat, steps: seq<Feed.Step>, longer: seq<Feed.Step>, n: nat)
    requires 0 < capacity && n <= |steps| && steps <= longer
    ensures Feed.At(capacity, longer, n) == Feed.At(capacity, steps, n)
  {
    assert longer == steps + longer[|steps|..];
    AtPrefix(capacity, steps, longer[|steps|..], n);
  }

  lemma SentBackfillOnce(capacity: nat, steps: seq<Feed.Step>, list: nat, backfill: int, budget: nat)
    requires 0 < capacity && list < |steps|
    ensures FeedRuns.EntriesDistinct(Feed.At(capacity, steps, |steps|)) ==>
              Distinct(Take(FeedRuns.BackfillSent(capacity, steps, list, backfill), budget))
  {
    if FeedRuns.EntriesDistinct(Feed.At(capacity, steps, |steps|)) {
      FeedRuns.BackfillDistinct(capacity, steps, list, backfill, |steps|);
    }
  }
}
