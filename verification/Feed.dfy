/** The live feed as a step system: pushes, subscriptions, deliveries and receives of
    any number of goroutines, interleaved in any order (internal/capture/store.go).

    A Push takes its store lock once, inserting the entry and copying the subscriber
    list; afterwards, unlocked, it offers the entry to the copied channels one by one.
    Each offer is a step of its own, so anything may happen between two of them. */
module Feed {
  import opened Basics
  import opened Entries
  import opened Store
  import opened Channels

  /** A channel ever made, with the pushes whose entries were received from it. */
  datatype Sub = Sub(chan: Chan<nat>, received: seq<nat>, closes: nat) {
    /** Everything delivered so far, oldest delivery first, named by push number. */
    function Log(): (log: seq<nat>) {
      received + chan.queue
    }
  }

  /** A Push past its locked part: its entry, its copy of the subscriber list, and how
      many of those channels it has dealt with. */
  datatype PushState = PushState(entry: Entry, subs: seq<nat>, next: nat, panicked: bool) {
    function Handled(): (r: seq<nat>)
      requires next <= |subs|
      ensures forall c :: c in r ==> c in subs
    {
      subs[..next]
    }
  }

  datatype State = State(
    store: StoreVal,
    subscribers: seq<nat>,
    chans: seq<Sub>,                 // indexed by channel id
    pushes: seq<PushState>,          // indexed by push number
    dropped: set<(nat, nat)>)        // (push, channel) pairs passed over

  datatype Step =
    | Push(entry: Entry)             // the locked part
    | Send(push: nat)                // one iteration of the notify loop
    | Subscribe
    | Unsubscribe(chan: nat)
    | Receive(from: nat)
    | Clear
    | Read                           // Get, List, Len, Stats

  function Init(capacity: nat): (s: State) {
    State(Empty(capacity), [], [], [], {})
  }

  ghost predicate WellFormed(s: State) {
    && 0 < s.store.capacity
    && (forall c :: c in s.subscribers ==> c < |s.chans|)
    && (forall p :: 0 <= p < |s.pushes| ==> s.pushes[p].next <= |s.pushes[p].subs|)
    && (forall p, c :: 0 <= p < |s.pushes| && c in s.pushes[p].subs ==> c < |s.chans|)
  }

  /** The push has a channel left to offer its entry to. */
  predicate CanSend(s: State, p: nat) {
    p < |s.pushes| && !s.pushes[p].panicked && s.pushes[p].next < |s.pushes[p].subs|
  }

  function Target(s: State, p: nat): (c: nat)
    requires CanSend(s, p)
    ensures c in s.pushes[p].subs
  {
    s.pushes[p].subs[s.pushes[p].next]
  }

  function AfterPush(s: State, e: Entry): (r: State)
    requires 0 < s.store.capacity
  {
    s.(store := Insert(s.store, e), pushes := s.pushes + [PushState(e, s.subscribers, 0, false)])
  }

  function AfterOffer(s: State, p: nat): (r: State)
    requires CanSend(s, p) && Target(s, p) < |s.chans|
  {
    var c := Target(s, p);
    var sub := s.chans[c];
    match TrySend(sub.chan)
    case Panicked => s.(pushes := s.pushes[p := s.pushes[p].(panicked := true)])
    case Delivered =>
      s.(chans := s.chans[c := sub.(chan := AfterSend(sub.chan, p))],
         pushes := s.pushes[p := s.pushes[p].(next := s.pushes[p].next + 1)])
    case Dropped =>
      s.(dropped := s.dropped + {(p, c)},
         pushes := s.pushes[p := s.pushes[p].(next := s.pushes[p].next + 1)])
  }

  function AfterUnsubscribe(s: State, c: nat): (r: State)
    requires c < |s.chans|
  {
    var sub := s.chans[c];
    s.(subscribers := Without(s.subscribers, c),
       chans := s.chans[c := sub.(chan := sub.chan.(closed := true), closes := sub.closes + 1)])
  }

  function AfterReceive(s: State, c: nat): (r: State)
    requires c < |s.chans| && s.chans[c].chan.queue != []
  {
    var sub := s.chans[c];
    s.(chans := s.chans[c := sub.(chan := sub.chan.(queue := sub.chan.queue[1..]),
                                  received := sub.received + [sub.chan.queue[0]])])
  }

  /** One step; a step that is not enabled leaves the state alone. */
  function Next(s: State, step: Step): (r: State)
    requires WellFormed(s)
    ensures WellFormed(r)
  {
    match step
    case Push(e) => AfterPush(s, e)
    case Send(p) => if CanSend(s, p) then AfterOffer(s, p) else s
    case Subscribe =>
      s.(subscribers := s.subscribers + [|s.chans|], chans := s.chans + [Sub(Chan([], false), [], 0)])
    case Unsubscribe(c) =>
      if c in s.subscribers then WithoutKeeps(s.subscribers, c); AfterUnsubscribe(s, c) else s
    case Receive(c) => if c < |s.chans| && s.chans[c].chan.queue != [] then AfterReceive(s, c) else s
    case Clear => s.(store := Cleared(s.store))
    case Read => s
  }

  lemma {:induction false} WithoutKeeps(s: seq<nat>, x: nat)
    ensures forall y :: y in Without(s, x) ==> y in s
    ensures forall y :: y in s && y != x ==> y in Without(s, x)
    ensures Distinct(s) ==> Distinct(Without(s, x)) && x !in Without(s, x)
  {
    if s != [] && s[0] != x {
      WithoutKeeps(s[1..], x);
      assert Distinct(s) ==> Distinct(s[1..]);
      assert forall y :: y in Without(s, x) <==> y == s[0] || y in Without(s[1..], x);
      assert Distinct(s) ==> s[0] !in Without(s[1..], x);
    }
  }

  /** The state after the first n steps of a schedule. */
  function At(capacity: nat, steps: seq<Step>, n: nat): (s: State)
    requires 0 < capacity && n <= |steps|
    ensures WellFormed(s)
  {
    if n == 0 then Init(capacity) else Next(At(capacity, steps, n - 1), steps[n - 1])
  }

  // ---- What every step keeps --------------------------------------------

  /** The subscriber list is exactly the set of channels not yet closed, and closing happens once. */
  ghost predicate ListIsOpenChannels(s: State) {
    && Distinct(s.subscribers)
    && (forall c :: c in s.subscribers ==> c < |s.chans|)
    && (forall c :: 0 <= c < |s.chans| ==> (c in s.subscribers <==> !s.chans[c].chan.closed))
    && (forall c :: 0 <= c < |s.chans| ==> s.chans[c].closes == if s.chans[c].chan.closed then 1 else 0)
  }

  ghost predicate QueuesBounded(s: State) {
    forall c :: 0 <= c < |s.chans| ==> |s.chans[c].chan.queue| <= CHANNEL_CAPACITY
  }

  ghost predicate PushesDistinct(s: State) {
    forall p :: 0 <= p < |s.pushes| ==> s.pushes[p].next <= |s.pushes[p].subs| && Distinct(s.pushes[p].subs)
  }

  /** A channel's log holds a push at most once, and only one that has dealt with the channel. */
  ghost predicate LogSound(s: State, c: nat)
    requires WellFormed(s) && c < |s.chans|
  {
    && Distinct(s.chans[c].Log())
    && forall p :: p in s.chans[c].Log() ==> p < |s.pushes| && c in s.pushes[p].Handled()
  }

  /** Dealing with a channel means delivering to it or dropping, never both, never neither. */
  ghost predicate Accounted(s: State, p: nat, c: nat)
    requires WellFormed(s) && p < |s.pushes| && c < |s.chans|
  {
    && (c in s.pushes[p].Handled() <==> p in s.chans[c].Log() || (p, c) in s.dropped)
    && !(p in s.chans[c].Log() && (p, c) in s.dropped)
  }

  ghost predicate Inv(s: State) {
    && WellFormed(s)
    && ListIsOpenChannels(s)
    && QueuesBounded(s)
    && PushesDistinct(s)
    && (forall c :: 0 <= c < |s.chans| ==> LogSound(s, c))
    && (forall p, c :: 0 <= p < |s.pushes| && 0 <= c < |s.chans| ==> Accounted(s, p, c))
    && (forall p, c :: (p, c) in s.dropped ==> p < |s.pushes| && c < |s.chans|)
  }

  lemma PushKeeps(s: State, e: Entry)
    requires Inv(s)
    ensures Inv(AfterPush(s, e))
  {
    var r := AfterPush(s, e);
    assert forall p :: 0 <= p < |s.pushes| ==> r.pushes[p] == s.pushes[p];
    forall c | 0 <= c < |r.chans| ensures LogSound(r, c) && Accounted(r, |s.pushes|, c) {
      assert LogSound(s, c);
    }
    forall p, c | 0 <= p < |s.pushes| && 0 <= c < |r.chans| ensures Accounted(r, p, c) {
      assert Accounted(s, p, c);
    }
  }

  /** A push that has a channel left has not dealt with it yet. */
  lemma TargetIsNew(s: State, p: nat)
    requires WellFormed(s) && PushesDistinct(s) && CanSend(s, p)
    ensures Target(s, p) !in s.pushes[p].Handled()
  {
  }

  lemma OfferBasics(s: State, p: nat)
    requires Inv(s) && CanSend(s, p)
    ensures var r := AfterOffer(s, p);
            WellFormed(r) && ListIsOpenChannels(r) && QueuesBounded(r) && PushesDistinct(r)
  {
  }

  /** How a send changes the logs and the lists of channels dealt with. */
  lemma OfferMoves(s: State, p: nat)
    requires Inv(s) && CanSend(s, p)
    ensures var r, c, sent := AfterOffer(s, p), Target(s, p), TrySend(s.chans[Target(s, p)].chan);
            && WellFormed(r) && |r.chans| == |s.chans| && |r.pushes| == |s.pushes|
            && (forall d :: 0 <= d < |s.chans| ==>
                  r.chans[d].Log() == s.chans[d].Log() + if d == c && sent == Delivered then [p] else [])
            && (forall q :: 0 <= q < |s.pushes| ==>
                  r.pushes[q].Handled() == s.pushes[q].Handled() + if q == p && sent != Panicked then [c] else [])
            && r.dropped == s.dropped + if sent == Dropped then {(p, c)} else {}
  {
    OfferBasics(s, p);
  }

  lemma OfferKeeps(s: State, p: nat)
    requires Inv(s) && CanSend(s, p)
    ensures Inv(AfterOffer(s, p))
  {
    hide AfterOffer, ListIsOpenChannels, QueuesBounded, Sub.Log, PushState.Handled;
    var r := AfterOffer(s, p);
    var c := Target(s, p);
    OfferBasics(s, p);
    OfferMoves(s, p);
    TargetIsNew(s, p);
    assert LogSound(s, c) && Accounted(s, p, c);
    forall d | 0 <= d < |r.chans| ensures LogSound(r, d) {
      assert LogSound(s, d);
    }
    forall q, d | 0 <= q < |r.pushes| && 0 <= d < |r.chans| ensures Accounted(r, q, d) {
      assert Accounted(s, q, d);
    }
  }

  lemma SubscribeKeeps(s: State)
    requires Inv(s)
    ensures Inv(Next(s, Subscribe))
  {
    var r := Next(s, Subscribe);
    assert |s.chans| !in s.subscribers;
    assert ListIsOpenChannels(r);
    forall d | 0 <= d < |r.chans| ensures LogSound(r, d) {
      assert d < |s.chans| ==> LogSound(s, d);
      assert d == |s.chans| ==> r.chans[d].Log() == [];
    }
    forall q, d | 0 <= q < |r.pushes| && 0 <= d < |r.chans| ensures Accounted(r, q, d) {
      assert d < |s.chans| ==> Accounted(s, q, d);
      assert d == |s.chans| ==> r.chans[d].Log() == [];
    }
  }

  lemma UnsubscribeKeeps(s: State, c: nat)
    requires Inv(s) && c in s.subscribers
    ensures Inv(AfterUnsubscribe(s, c))
  {
    var r := AfterUnsubscribe(s, c);
    WithoutKeeps(s.subscribers, c);
    assert ListIsOpenChannels(r);
    SameLogs(s, r);
  }

  lemma ReceiveKeeps(s: State, c: nat)
    requires Inv(s) && c < |s.chans| && s.chans[c].chan.queue != []
    ensures Inv(AfterReceive(s, c))
  {
    var r := AfterReceive(s, c);
    var q := s.chans[c].chan.queue;
    assert q == [q[0]] + q[1..];
    assert r.chans[c].Log() == s.chans[c].Log();
    SameLogs(s, r);
  }

  /** A step that moves no entry between channels keeps the bookkeeping. */
  lemma SameLogs(s: State, r: State)
    requires Inv(s) && WellFormed(r) && |r.chans| == |s.chans| && r.pushes == s.pushes && r.dropped == s.dropped
    requires forall d :: 0 <= d < |s.chans| ==> r.chans[d].Log() == s.chans[d].Log()
    ensures forall d :: 0 <= d < |r.chans| ==> LogSound(r, d)
    ensures forall q, d :: 0 <= q < |r.pushes| && 0 <= d < |r.chans| ==> Accounted(r, q, d)
  {
    forall d | 0 <= d < |r.chans| ensures LogSound(r, d) {
      assert LogSound(s, d);
    }
    forall q, d | 0 <= q < |r.pushes| && 0 <= d < |r.chans| ensures Accounted(r, q, d) {
      assert Accounted(s, q, d);
    }
  }

  lemma NextKeeps(s: State, step: Step)
    requires Inv(s)
    ensures Inv(Next(s, step))
  {
    match step
    case Push(e) => PushKeeps(s, e);
    case Send(p) => if CanSend(s, p) { OfferKeeps(s, p); }
    case Subscribe => SubscribeKeeps(s);
    case Unsubscribe(c) => if c in s.subscribers { UnsubscribeKeeps(s, c); }
    case Receive(c) => if c < |s.chans| && s.chans[c].chan.queue != [] { ReceiveKeeps(s, c); }
    case Clear => SameLogs(s, Next(s, Step.Clear));
    case Read =>
  }

  lemma {:induction false} InvAlways(capacity: nat, steps: seq<Step>, n: nat)
    requires 0 < capacity && n <= |steps|
    ensures Inv(At(capacity, steps, n))
  {
    if n == 0 {
    } else {
      InvAlways(capacity, steps, n - 1);
      NextKeeps(At(capacity, steps, n - 1), steps[n - 1]);
    }
  }
}
