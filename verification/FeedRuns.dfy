/** Theorems about every schedule of the live feed: who gets what, when a push can
    panic, and what a stream client that backfills and then subscribes is sent
    (internal/capture/store.go, internal/api/handlers_sse.go). */
module FeedRuns {
  import opened Basics
  import opened Entries
  import opened Store
  import opened Channels
  import opened Feed

  // ---- Time -------------------------------------------------------------

  /** Step t of the schedule is the locked part of push number p. */
  ghost predicate LockedAt(capacity: nat, steps: seq<Step>, p: nat, t: nat)
    requires 0 < capacity
  {
    t < |steps| && steps[t].Push? && |At(capacity, steps, t).pushes| == p
  }

  ghost predicate UnsubscribedWithin(steps: seq<Step>, c: nat, from: nat, to: nat) {
    exists v :: from <= v < to <= |steps| && steps[v] == Unsubscribe(c)
  }

  /** Later states remember every push and channel of earlier ones. */
  ghost predicate Grows(s: State, r: State) {
    && |s.pushes| <= |r.pushes| && |s.chans| <= |r.chans|
    && forall p :: 0 <= p < |s.pushes| ==>
                     r.pushes[p].entry == s.pushes[p].entry && r.pushes[p].subs == s.pushes[p].subs
  }

  lemma StepGrows(s: State, step: Step)
    requires WellFormed(s)
    ensures Grows(s, Next(s, step))
    ensures |Next(s, step).pushes| == |s.pushes| + if step.Push? then 1 else 0
    ensures |Next(s, step).chans| == |s.chans| + if step.Subscribe? then 1 else 0
  {
  }

  lemma GrowsOn(a: State, b: State, c: State)
    requires Grows(a, b) && Grows(b, c)
    ensures Grows(a, c)
  {
  }

  /** Nothing recorded at an earlier time is forgotten later. */
  lemma {:induction false} HistoryGrows(capacity: nat, steps: seq<Step>, m: nat, n: nat)
    requires 0 < capacity && m <= n <= |steps|
    ensures Grows(At(capacity, steps, m), At(capacity, steps, n))
  {
    hide Next;
    if m == n {
    } else {
      HistoryGrows(capacity, steps, m, n - 1);
      StepGrows(At(capacity, steps, n - 1), steps[n - 1]);
      GrowsOn(At(capacity, steps, m), At(capacity, steps, n - 1), At(capacity, steps, n));
    }
  }

  /** Which channels the next step leaves on the list. */
  lemma StepSubscribers(s: State, step: Step, c: nat)
    requires WellFormed(s) && ListIsOpenChannels(s) && c < |s.chans|
    ensures c in Next(s, step).subscribers <==> c in s.subscribers && step != Unsubscribe(c)
  {
    if step.Unsubscribe? && step.chan in s.subscribers {
      WithoutKeeps(s.subscribers, step.chan);
    }
  }

  /** The subscriber list a push works through is the one at its locked step. */
  lemma Snapshot(capacity: nat, steps: seq<Step>, p: nat, t: nat, n: nat)
    requires 0 < capacity && LockedAt(capacity, steps, p, t) && t < n <= |steps|
    ensures p < |At(capacity, steps, n).pushes|
    ensures At(capacity, steps, n).pushes[p].entry == steps[t].entry
    ensures At(capacity, steps, n).pushes[p].subs == At(capacity, steps, t).subscribers
  {
    hide Next, Insert;
    HistoryGrows(capacity, steps, t + 1, n);
    LockedStep(capacity, steps, t);
  }

  lemma LockedStep(capacity: nat, steps: seq<Step>, t: nat)
    requires 0 < capacity && t < |steps| && steps[t].Push?
    ensures At(capacity, steps, t + 1) == AfterPush(At(capacity, steps, t), steps[t].entry)
  {
    hide AfterPush;
  }

  lemma {:induction false} LockedSomewhere(capacity: nat, steps: seq<Step>, p: nat, n: nat) returns (t: nat)
    requires 0 < capacity && n <= |steps| && p < |At(capacity, steps, n).pushes|
    ensures t < n && LockedAt(capacity, steps, p, t)
  {
    hide Next;
    StepGrows(At(capacity, steps, n - 1), steps[n - 1]);
    if p < |At(capacity, steps, n - 1).pushes| {
      t := LockedSomewhere(capacity, steps, p, n - 1);
    } else {
      t := n - 1;
    }
  }

  lemma ListAlways(capacity: nat, steps: seq<Step>, n: nat)
    requires 0 < capacity && n <= |steps|
    ensures ListIsOpenChannels(At(capacity, steps, n))
  {
    InvAlways(capacity, steps, n);
  }

  lemma WithinStep(steps: seq<Step>, c: nat, m: nat, n: nat)
    requires m < n <= |steps|
    ensures UnsubscribedWithin(steps, c, m, n) <==>
            UnsubscribedWithin(steps, c, m, n - 1) || steps[n - 1] == Unsubscribe(c)
  {
  }

  lemma StaysKnown(capacity: nat, steps: seq<Step>, c: nat, m: nat, n: nat)
    requires 0 < capacity && m <= n <= |steps| && c in At(capacity, steps, m).subscribers
    ensures c < |At(capacity, steps, n).chans|
  {
    ListAlways(capacity, steps, m);
    HistoryGrows(capacity, steps, m, n);
  }

  /** A subscribed channel stays on the list until someone unsubscribes it, and no longer. */
  lemma {:induction false} SubscribedUntil(capacity: nat, steps: seq<Step>, c: nat, m: nat, n: nat)
    requires 0 < capacity && m <= n <= |steps| && c in At(capacity, steps, m).subscribers
    ensures c in At(capacity, steps, n).subscribers <==> !UnsubscribedWithin(steps, c, m, n)
  {
    hide Next, ListIsOpenChannels;
    if m == n {
    } else {
      SubscribedUntil(capacity, steps, c, m, n - 1);
      ListAlways(capacity, steps, n - 1);
      StaysKnown(capacity, steps, c, m, n - 1);
      StepSubscribers(At(capacity, steps, n - 1), steps[n - 1], c);
      WithinStep(steps, c, m, n);
    }
  }

  /** When a channel is on the list: after its Subscribe, before its Unsubscribe. */
  lemma {:induction false} SubscribedExactly(capacity: nat, steps: seq<Step>, c: nat, n: nat)
    requires 0 < capacity && n <= |steps|
    ensures c in At(capacity, steps, n).subscribers <==>
            exists u :: 0 <= u < n && MakesChan(capacity, steps, c, u) && !UnsubscribedWithin(steps, c, u + 1, n)
  {
    hide Next;
    ListAlways(capacity, steps, n);
    if c < |At(capacity, steps, n).chans| {
      var u := MadeSomewhere(capacity, steps, c, n);
      SubscribedUntil(capacity, steps, c, u + 1, n);
      forall w | 0 <= w < n && MakesChan(capacity, steps, c, w) ensures w == u {
        MadeOnce(capacity, steps, c, u, w);
      }
    } else {
      forall w | 0 <= w < n ensures !MakesChan(capacity, steps, c, w) {
        StepGrows(At(capacity, steps, w), steps[w]);
        HistoryGrows(capacity, steps, w + 1, n);
      }
    }
  }

  /** The list is in the order in which its channels were subscribed. */
  ghost predicate InOrder(subscribers: seq<nat>) {
    forall i, j :: 0 <= i < j < |subscribers| ==> subscribers[i] < subscribers[j]
  }

  lemma {:induction false} WithoutInOrder(s: seq<nat>, c: nat)
    requires InOrder(s)
    ensures InOrder(Without(s, c))
  {
    if s == [] || s[0] == c {
    } else {
      var rest := Without(s[1..], c);
      WithoutInOrder(s[1..], c);
      WithoutKeeps(s[1..], c);
      forall i | 0 <= i < |rest| ensures s[0] < rest[i] {
        assert rest[i] in s[1..];
      }
      assert Without(s, c) == [s[0]] + rest;
    }
  }

  lemma StepInOrder(s: State, step: Step)
    requires WellFormed(s) && InOrder(s.subscribers)
    ensures InOrder(Next(s, step).subscribers)
  {
    if step.Unsubscribe? {
      WithoutInOrder(s.subscribers, step.chan);
    }
    assert forall i :: 0 <= i < |s.subscribers| ==> s.subscribers[i] in s.subscribers;
  }

  /** Pushes offer their entry in the order of the Subscribes. */
  lemma {:induction false} SubscribersInOrder(capacity: nat, steps: seq<Step>, n: nat)
    requires 0 < capacity && n <= |steps|
    ensures InOrder(At(capacity, steps, n).subscribers)
  {
    hide Next;
    if n == 0 {
    } else {
      SubscribersInOrder(capacity, steps, n - 1);
      StepInOrder(At(capacity, steps, n - 1), steps[n - 1]);
    }
  }

  /** Step u is the Subscribe that returned channel c. */
  ghost predicate MakesChan(capacity: nat, steps: seq<Step>, c: nat, u: nat)
    requires 0 < capacity
  {
    u < |steps| && steps[u] == Subscribe && |At(capacity, steps, u).chans| == c
  }

  lemma {:induction false} MadeSomewhere(capacity: nat, steps: seq<Step>, c: nat, n: nat) returns (u: nat)
    requires 0 < capacity && n <= |steps| && c < |At(capacity, steps, n).chans|
    ensures u < n && MakesChan(capacity, steps, c, u)
    ensures c in At(capacity, steps, u + 1).subscribers
  {
    hide Inv;
    StepGrows(At(capacity, steps, n - 1), steps[n - 1]);
    if c < |At(capacity, steps, n - 1).chans| {
      u := MadeSomewhere(capacity, steps, c, n - 1);
    } else {
      u := n - 1;
    }
  }

  lemma MadeOnce(capacity: nat, steps: seq<Step>, c: nat, u: nat, w: nat)
    requires 0 < capacity && MakesChan(capacity, steps, c, u) && MakesChan(capacity, steps, c, w)
    ensures u == w
  {
    hide Next;
    var lo, hi := if u < w then u else w, if u < w then w else u;
    StepGrows(At(capacity, steps, lo), steps[lo]);
    if lo < hi {
      HistoryGrows(capacity, steps, lo + 1, hi);
    }
  }

  // ---- Delivery ---------------------------------------------------------

  /** In every schedule: bounded queues, no push delivered twice to a channel, one close. */
  lemma ChannelSafety(capacity: nat, steps: seq<Step>, n: nat, c: nat)
    requires 0 < capacity && n <= |steps| && c < |At(capacity, steps, n).chans|
    ensures |At(capacity, steps, n).chans[c].chan.queue| <= 100
    ensures Distinct(At(capacity, steps, n).chans[c].Log())
    ensures At(capacity, steps, n).chans[c].closes <= 1
  {
    InvAlways(capacity, steps, n);
    assert LogSound(At(capacity, steps, n), c);
  }

  /** Whatever a channel holds or handed over came from a push that took the lock while
      the channel was subscribed. */
  lemma DeliveredWhileSubscribed(capacity: nat, steps: seq<Step>, n: nat, c: nat, p: nat) returns (t: nat)
    requires 0 < capacity && n <= |steps| && c < |At(capacity, steps, n).chans|
    requires p in At(capacity, steps, n).chans[c].Log()
    ensures t < n && LockedAt(capacity, steps, p, t)
    ensures c in At(capacity, steps, t).subscribers
  {
    InvAlways(capacity, steps, n);
    assert LogSound(At(capacity, steps, n), c);
    t := LockedSomewhere(capacity, steps, p, n);
    Snapshot(capacity, steps, p, t, n);
  }

  /** The push has nothing left to do: it offered its entry to every channel, or panicked. */
  ghost predicate PushDone(s: State, p: nat) {
    p < |s.pushes| && !CanSend(s, p)
  }

  /** The push panicked at this channel of its list or at one before it. */
  ghost predicate CutOff(push: PushState, c: nat) {
    push.next <= |push.subs| && push.panicked && c in push.subs[push.next..]
  }

  /** What a push that is done did with each channel of its snapshot, exactly: it delivered its entry
      there, once, or dropped it there, or panicked before it got past that channel. */
  lemma DonePushAccounted(capacity: nat, steps: seq<Step>, n: nat, p: nat, t: nat, c: nat)
    requires 0 < capacity && t < n <= |steps| && LockedAt(capacity, steps, p, t)
    requires PushDone(At(capacity, steps, n), p)
    requires c in At(capacity, steps, t).subscribers
    ensures var s := At(capacity, steps, n);
            && c < |s.chans|
            && !(p in s.chans[c].Log() && (p, c) in s.dropped)
            && (p !in s.chans[c].Log() && (p, c) !in s.dropped <==> CutOff(s.pushes[p], c))
  {
    hide Next;
    InvAlways(capacity, steps, n);
    Snapshot(capacity, steps, p, t, n);
    var s := At(capacity, steps, n);
    assert Accounted(s, p, c);
    HandledOrNot(s.pushes[p], c);
  }

  lemma HandledOrNot(push: PushState, c: nat)
    requires push.next <= |push.subs| && Distinct(push.subs) && c in push.subs
    ensures c in push.Handled() <==> c !in push.subs[push.next..]
  {
    assert push.subs == push.subs[..push.next] + push.subs[push.next..];
  }

  lemma StepDrops(s: State, step: Step, p: nat, c: nat)
    requires Inv(s) && (p, c) in Next(s, step).dropped && (p, c) !in s.dropped
    ensures step == Send(p) && CanSend(s, p) && Target(s, p) == c < |s.chans|
    ensures |s.chans[c].chan.queue| == CHANNEL_CAPACITY
  {
    hide Insert, LogSound, Accounted;
  }

  /** An entry is passed over only by a send that found all places of the channel taken. */
  lemma {:induction false} DroppedOnlyWhenFull(capacity: nat, steps: seq<Step>, n: nat, p: nat, c: nat) returns (t: nat)
    requires 0 < capacity && n <= |steps| && (p, c) in At(capacity, steps, n).dropped
    ensures t < n && steps[t] == Send(p)
    ensures var s := At(capacity, steps, t);
            CanSend(s, p) && Target(s, p) == c < |s.chans| && |s.chans[c].chan.queue| == 100
  {
    hide Next, Inv;
    if (p, c) in At(capacity, steps, n - 1).dropped {
      t := DroppedOnlyWhenFull(capacity, steps, n - 1, p, c);
    } else {
      t := n - 1;
      InvAlways(capacity, steps, t);
      StepDrops(At(capacity, steps, t), steps[t], p, c);
    }
  }

  // ---- The order of deliveries ------------------------------------------

  /** What a step adds to a channel's log: nothing, or at its end the push that sends to it. */
  lemma StepLogs(s: State, step: Step, c: nat)
    requires Inv(s) && c < |s.chans|
    ensures c < |Next(s, step).chans|
    ensures Next(s, step).chans[c].Log() == s.chans[c].Log() ||
            (step.Send? && CanSend(s, step.push) && Next(s, step).chans[c].Log() == s.chans[c].Log() + [step.push])
  {
    hide Insert, LogSound, Accounted, Sub.Log, PushState.Handled, AfterOffer;
    if step.Send? && CanSend(s, step.push) {
      OfferMoves(s, step.push);
      assert s.chans[c].Log() + [] == s.chans[c].Log();
    } else if step.Receive? && step.from < |s.chans| && s.chans[step.from].chan.queue != [] {
      ReceiveMoves(s, step.from);
    } else {
      SameChannels(s, step, c);
    }
  }

  lemma ReceiveMoves(s: State, c: nat)
    requires c < |s.chans| && s.chans[c].chan.queue != []
    ensures AfterReceive(s, c).chans[c].Log() == s.chans[c].Log()
  {
    var q := s.chans[c].chan.queue;
    assert q == [q[0]] + q[1..];
  }

  lemma SameChannels(s: State, step: Step, c: nat)
    requires WellFormed(s) && c < |s.chans|
    requires !(step.Send? && CanSend(s, step.push))
    requires !(step.Receive? && step.from < |s.chans| && s.chans[step.from].chan.queue != [])
    ensures c < |Next(s, step).chans| && Next(s, step).chans[c].Log() == s.chans[c].Log()
  {
  }

  /** A channel's log only ever grows, and only at its end. */
  lemma {:induction false} LogGrows(capacity: nat, steps: seq<Step>, c: nat, m: nat, n: nat)
    requires 0 < capacity && m <= n <= |steps| && c < |At(capacity, steps, m).chans|
    ensures c < |At(capacity, steps, n).chans|
    ensures At(capacity, steps, m).chans[c].Log() <= At(capacity, steps, n).chans[c].Log()
  {
    hide Next, Inv, Sub.Log;
    if m == n {
    } else {
      LogGrows(capacity, steps, c, m, n - 1);
      InvAlways(capacity, steps, n - 1);
      StepLogs(At(capacity, steps, n - 1), steps[n - 1], c);
    }
  }

  /** At step m push p has been delivered to channel c and push q has not. */
  ghost predicate AheadAt(capacity: nat, steps: seq<Step>, c: nat, p: nat, q: nat, m: nat)
    requires 0 < capacity && m <= |steps|
  {
    var s := At(capacity, steps, m);
    c < |s.chans| && p in s.chans[c].Log() && q !in s.chans[c].Log()
  }

  /** The order in which a channel hands entries over is the order of their deliveries, exactly. */
  lemma LogOrderExactly(capacity: nat, steps: seq<Step>, n: nat, c: nat, i: nat, j: nat)
    requires 0 < capacity && n <= |steps| && c < |At(capacity, steps, n).chans|
    requires var log := At(capacity, steps, n).chans[c].Log(); i < |log| && j < |log|
    ensures var log := At(capacity, steps, n).chans[c].Log();
            i < j <==> exists m :: 0 <= m <= n && AheadAt(capacity, steps, c, log[i], log[j], m)
  {
    hide Next, Inv, Sub.Log;
    var log := At(capacity, steps, n).chans[c].Log();
    ChannelSafety(capacity, steps, n, c);
    if i < j {
      var m := DeliveredAt(capacity, steps, n, c, j);
      var before := At(capacity, steps, m).chans[c].Log();
      assert before[i] == log[i];
      assert AheadAt(capacity, steps, c, log[i], log[j], m);
    }
    forall m | 0 <= m <= n && AheadAt(capacity, steps, c, log[i], log[j], m) ensures i < j {
      LogGrows(capacity, steps, c, m, n);
      PrefixIsEarlier(At(capacity, steps, m).chans[c].Log(), log, i, j);
    }
  }

  lemma PrefixIsEarlier(before: seq<nat>, log: seq<nat>, i: nat, j: nat)
    requires Distinct(log) && before <= log && i < |log| && j < |log| && log[i] in before && log[j] !in before
    ensures i < j
  {
    var k :| 0 <= k < |before| && before[k] == log[i];
    assert log[k] == log[i];
    assert forall l :: 0 <= l < |before| ==> log[l] == before[l];
  }

  /** The moment just before position j of a log is filled. */
  lemma {:induction false} DeliveredAt(capacity: nat, steps: seq<Step>, n: nat, c: nat, j: nat) returns (m: nat)
    requires 0 < capacity && n <= |steps| && c < |At(capacity, steps, n).chans|
    requires j < |At(capacity, steps, n).chans[c].Log()|
    ensures m < n && c < |At(capacity, steps, m).chans|
    ensures At(capacity, steps, m).chans[c].Log() == At(capacity, steps, n).chans[c].Log()[..j]
    ensures At(capacity, steps, n).chans[c].Log()[j] !in At(capacity, steps, m).chans[c].Log()
  {
    hide Next, Inv, Sub.Log;
    var log := At(capacity, steps, n).chans[c].Log();
    ChannelSafety(capacity, steps, n, c);
    NonEmptyLogIsOld(capacity, steps, n, c);
    var s := At(capacity, steps, n - 1);
    InvAlways(capacity, steps, n - 1);
    StepLogs(s, steps[n - 1], c);
    if j < |s.chans[c].Log()| {
      m := DeliveredAt(capacity, steps, n - 1, c, j);
      assert s.chans[c].Log()[..j] == log[..j];
    } else {
      m := n - 1;
      assert s.chans[c].Log() == log[..j];
    }
  }

  /** A channel that has been delivered to was not made by the last step. */
  lemma NonEmptyLogIsOld(capacity: nat, steps: seq<Step>, n: nat, c: nat)
    requires 0 < capacity && n <= |steps| && c < |At(capacity, steps, n).chans|
    requires At(capacity, steps, n).chans[c].Log() != []
    ensures n > 0 && c < |At(capacity, steps, n - 1).chans|
  {
    StepGrows(At(capacity, steps, n - 1), steps[n - 1]);
  }

  lemma StepKeepsDone(s: State, step: Step, p: nat)
    requires WellFormed(s) && PushDone(s, p)
    ensures PushDone(Next(s, step), p)
  {
    hide Insert;
  }

  /** A push that is done delivers nothing more. */
  lemma {:induction false} DoneDeliversNothing(capacity: nat, steps: seq<Step>, p: nat, c: nat, m: nat, n: nat)
    requires 0 < capacity && m <= n <= |steps| && PushDone(At(capacity, steps, m), p)
    requires c < |At(capacity, steps, n).chans| && p in At(capacity, steps, n).chans[c].Log()
    ensures PushDone(At(capacity, steps, n), p)
    ensures c < |At(capacity, steps, m).chans| && p in At(capacity, steps, m).chans[c].Log()
  {
    hide Next, Inv, Sub.Log;
    if m == n {
    } else {
      StaysDone(capacity, steps, p, m, n);
      StaysDone(capacity, steps, p, m, n - 1);
      NonEmptyLogIsOld(capacity, steps, n, c);
      InvAlways(capacity, steps, n - 1);
      StepLogs(At(capacity, steps, n - 1), steps[n - 1], c);
      DoneDeliversNothing(capacity, steps, p, c, m, n - 1);
    }
  }

  lemma {:induction false} StaysDone(capacity: nat, steps: seq<Step>, p: nat, m: nat, n: nat)
    requires 0 < capacity && m <= n <= |steps| && PushDone(At(capacity, steps, m), p)
    ensures PushDone(At(capacity, steps, n), p)
  {
    hide Next, PushDone;
    if m == n {
    } else {
      StaysDone(capacity, steps, p, m, n - 1);
      StepKeepsDone(At(capacity, steps, n - 1), steps[n - 1], p);
    }
  }

  lemma LogIsOfPushes(s: State, c: nat)
    requires Inv(s) && c < |s.chans|
    ensures forall p :: p in s.chans[c].Log() ==> p < |s.pushes|
  {
    assert LogSound(s, c);
  }

  /** When the order of the pushes is kept: a push that is done when another takes the lock is
      ahead of it in every channel that gets both. */
  lemma OrderKept(capacity: nat, steps: seq<Step>, p: nat, q: nat, t: nat, n: nat, c: nat, i: nat, j: nat)
    requires 0 < capacity && t < n <= |steps| && LockedAt(capacity, steps, q, t)
    requires PushDone(At(capacity, steps, t), p)
    requires c < |At(capacity, steps, n).chans|
    requires var log := At(capacity, steps, n).chans[c].Log(); i < |log| && j < |log| && log[i] == p && log[j] == q
    ensures i < j
  {
    hide Next, Inv, Sub.Log;
    DoneDeliversNothing(capacity, steps, p, c, t, n);
    var s := At(capacity, steps, t);
    InvAlways(capacity, steps, t);
    LogIsOfPushes(s, c);
    assert AheadAt(capacity, steps, c, p, q, t);
    LogOrderExactly(capacity, steps, n, c, i, j);
  }

  /** Pushes that never overlap are handed over by every channel in the order they were made. */
  lemma SequentialPushesInOrder(capacity: nat, steps: seq<Step>, n: nat, c: nat)
    requires 0 < capacity && n <= |steps| && c < |At(capacity, steps, n).chans|
    requires forall t, p :: 0 <= t < n && steps[t].Push? && 0 <= p < |At(capacity, steps, t).pushes| ==>
                              PushDone(At(capacity, steps, t), p)
    ensures var log := At(capacity, steps, n).chans[c].Log(); forall i, j :: 0 <= i < j < |log| ==> log[i] < log[j]
  {
    hide Next, Inv, Sub.Log, PushDone;
    var log := At(capacity, steps, n).chans[c].Log();
    ChannelSafety(capacity, steps, n, c);
    forall i, j | 0 <= i < j < |log| ensures log[i] < log[j] {
      if log[j] < log[i] {
        var t := DeliveredWhileSubscribed(capacity, steps, n, c, log[i]);
        OrderKept(capacity, steps, log[j], log[i], t, n, c, j, i);
      }
    }
  }

  lemma SwappedSends(s: State)
    requires WellFormed(s) && s.chans == [Sub(Chan([], false), [], 0)] && |s.pushes| == 2
    requires forall p :: 0 <= p < 2 ==> s.pushes[p].subs == [0] && s.pushes[p].next == 0 && !s.pushes[p].panicked
    ensures var r := Next(Next(s, Send(1)), Send(0)); |r.chans| == 1 && r.chans[0].Log() == [1, 0]
  {
    var r := Next(s, Send(1));
    assert r == AfterOffer(s, 1) && r.chans[0].chan.queue == [1] && r.pushes[0] == s.pushes[0];
  }

  lemma TwoPushes(a: Entry, b: Entry)
    ensures var s := Next(Next(Next(Init(1), Subscribe), Step.Push(a)), Step.Push(b));
            && s.chans == [Sub(Chan([], false), [], 0)]
            && s.pushes == [PushState(a, [0], 0, false), PushState(b, [0], 0, false)]
  {
    hide Insert;
    var s1 := Next(Init(1), Subscribe);
    assert s1.subscribers == [0] && s1.chans == [Sub(Chan([], false), [], 0)];
    var s2 := Next(s1, Step.Push(a));
    assert s2.pushes == [PushState(a, [0], 0, false)];
  }

  /** Otherwise the order can be lost: the second push overtakes the first. */
  lemma DeliveryCanOvertake(a: Entry, b: Entry)
    ensures var s := At(1, [Subscribe, Step.Push(a), Step.Push(b), Send(1), Send(0)], 5);
            |s.chans| == 1 && s.chans[0].Log() == [1, 0]
  {
    hide Next;
    var steps := [Subscribe, Step.Push(a), Step.Push(b), Send(1), Send(0)];
    TwoPushes(a, b);
    var s3 := Next(Next(Next(Init(1), Subscribe), Step.Push(a)), Step.Push(b));
    SwappedSends(s3);
    assert At(1, steps, 1) == Next(Init(1), steps[0]);
    assert At(1, steps, 2) == Next(At(1, steps, 1), steps[1]);
    assert At(1, steps, 3) == s3;
    assert At(1, steps, 4) == Next(s3, steps[3]);
  }

  // ---- Sending on a closed channel --------------------------------------

  /** A send panics exactly when its channel was unsubscribed after the push copied the list. */
  lemma PanicExactly(capacity: nat, steps: seq<Step>, p: nat, lock: nat, t: nat)
    requires 0 < capacity && lock < t < |steps| && LockedAt(capacity, steps, p, lock)
    requires steps[t] == Send(p) && CanSend(At(capacity, steps, t), p)
    ensures p < |At(capacity, steps, t + 1).pushes|
    ensures At(capacity, steps, t + 1).pushes[p].panicked <==>
            UnsubscribedWithin(steps, Target(At(capacity, steps, t), p), lock, t)
  {
    var s := At(capacity, steps, t);
    InvAlways(capacity, steps, t);
    Snapshot(capacity, steps, p, lock, t);
    SubscribedUntil(capacity, steps, Target(s, p), lock, t);
    assert At(capacity, steps, t + 1) == AfterOffer(s, p);
  }

  /** What a send does, exactly: it panics if its channel was unsubscribed after the push copied the list,
      passes the entry over if 100 are queued, and else appends it to the queue; it touches no other
      channel, no other push and nothing else. */
  lemma SendExactly(capacity: nat, steps: seq<Step>, p: nat, lock: nat, t: nat)
    requires 0 < capacity && lock < t < |steps| && LockedAt(capacity, steps, p, lock)
    requires steps[t] == Send(p) && CanSend(At(capacity, steps, t), p)
    ensures var s := At(capacity, steps, t);
            var c, push := Target(s, p), s.pushes[p];
            c < |s.chans| &&
            var sub := s.chans[c];
            At(capacity, steps, t + 1) ==
            if UnsubscribedWithin(steps, c, lock, t) then s.(pushes := s.pushes[p := push.(panicked := true)])
            else if |sub.chan.queue| == 100 then
              s.(pushes := s.pushes[p := push.(next := push.next + 1)], dropped := s.dropped + {(p, c)})
            else
              s.(pushes := s.pushes[p := push.(next := push.next + 1)],
                 chans := s.chans[c := sub.(chan := Chan(sub.chan.queue + [p], false))])
  {
    var s := At(capacity, steps, t);
    InvAlways(capacity, steps, t);
    Snapshot(capacity, steps, p, lock, t);
    hide Next, Inv, AfterOffer, At;
    SubscribedUntil(capacity, steps, Target(s, p), lock, t);
    SendStep(capacity, steps, p, t);
    OfferExactly(s, p);
  }

  lemma OfferExactly(s: State, p: nat)
    requires Inv(s) && CanSend(s, p)
    ensures var c, push := Target(s, p), s.pushes[p];
            c < |s.chans| &&
            var sub := s.chans[c];
            AfterOffer(s, p) ==
            if c !in s.subscribers then s.(pushes := s.pushes[p := push.(panicked := true)])
            else if |sub.chan.queue| == 100 then
              s.(pushes := s.pushes[p := push.(next := push.next + 1)], dropped := s.dropped + {(p, c)})
            else
              s.(pushes := s.pushes[p := push.(next := push.next + 1)],
                 chans := s.chans[c := sub.(chan := Chan(sub.chan.queue + [p], false))])
  {
  }

  lemma StepPanics(s: State, step: Step, p: nat)
    requires WellFormed(s) && p < |s.pushes|
    ensures p < |Next(s, step).pushes|
    ensures Next(s, step).pushes[p].panicked != s.pushes[p].panicked ==> step == Send(p) && CanSend(s, p)
  {
  }

  lemma FreshPush(capacity: nat, steps: seq<Step>, p: nat, lock: nat)
    requires 0 < capacity && LockedAt(capacity, steps, p, lock)
    ensures p < |At(capacity, steps, lock + 1).pushes| && !At(capacity, steps, lock + 1).pushes[p].panicked
  {
    hide Next, Insert;
    LockedStep(capacity, steps, lock);
  }

  /** A push whose channels are left subscribed until it is done never panics. */
  lemma {:induction false} NoPanicWithoutUnsubscribe(capacity: nat, steps: seq<Step>, p: nat, lock: nat, n: nat)
    requires 0 < capacity && lock < n <= |steps| && LockedAt(capacity, steps, p, lock)
    requires forall c :: c in At(capacity, steps, lock).subscribers ==> !UnsubscribedWithin(steps, c, lock, n)
    ensures p < |At(capacity, steps, n).pushes| && !At(capacity, steps, n).pushes[p].panicked
  {
    hide Next;
    if lock + 1 == n {
      FreshPush(capacity, steps, p, lock);
    } else {
      var s := At(capacity, steps, n - 1);
      forall c | c in At(capacity, steps, lock).subscribers ensures !UnsubscribedWithin(steps, c, lock, n - 1) {
        assert UnsubscribedWithin(steps, c, lock, n - 1) ==> UnsubscribedWithin(steps, c, lock, n);
      }
      NoPanicWithoutUnsubscribe(capacity, steps, p, lock, n - 1);
      StepPanics(s, steps[n - 1], p);
      if steps[n - 1] == Send(p) && CanSend(s, p) {
        Snapshot(capacity, steps, p, lock, n - 1);
        PanicExactly(capacity, steps, p, lock, n - 1);
      }
    }
  }

  /** A push that has panicked stays where it is. */
  lemma StepKeepsPanicked(s: State, step: Step, p: nat)
    requires WellFormed(s) && p < |s.pushes| && s.pushes[p].panicked
    ensures p < |Next(s, step).pushes| && Next(s, step).pushes[p] == s.pushes[p]
  {
    hide Insert;
  }

  lemma OfferPanics(s: State, p: nat)
    requires WellFormed(s) && CanSend(s, p) && AfterOffer(s, p).pushes[p].panicked
    ensures AfterOffer(s, p).pushes[p] == s.pushes[p].(panicked := true)
  {
  }

  /** A push has panicked only because the channel it stopped at was unsubscribed after its snapshot. */
  lemma {:induction false} PanickedBecause(capacity: nat, steps: seq<Step>, p: nat, lock: nat, n: nat) returns (t: nat)
    requires 0 < capacity && lock < n <= |steps| && LockedAt(capacity, steps, p, lock)
    requires p < |At(capacity, steps, n).pushes| && At(capacity, steps, n).pushes[p].panicked
    ensures lock < t < n && steps[t] == Send(p)
    ensures var push := At(capacity, steps, n).pushes[p];
            push.next < |push.subs| && UnsubscribedWithin(steps, push.subs[push.next], lock, t)
  {
    hide Next, UnsubscribedWithin, AfterOffer;
    if lock + 1 == n {
      FreshPush(capacity, steps, p, lock);
      assert false;
    } else {
      var s := At(capacity, steps, n - 1);
      Snapshot(capacity, steps, p, lock, n - 1);
      if s.pushes[p].panicked {
        StepKeepsPanicked(s, steps[n - 1], p);
        t := PanickedBecause(capacity, steps, p, lock, n - 1);
      } else {
        StepPanics(s, steps[n - 1], p);
        PanicExactly(capacity, steps, p, lock, n - 1);
        SendStep(capacity, steps, p, n - 1);
        OfferPanics(s, p);
        t := n - 1;
      }
    }
  }

  lemma SendStep(capacity: nat, steps: seq<Step>, p: nat, t: nat)
    requires 0 < capacity && t < |steps| && steps[t] == Send(p) && CanSend(At(capacity, steps, t), p)
    ensures At(capacity, steps, t + 1) == AfterOffer(At(capacity, steps, t), p)
  {
    hide AfterOffer;
  }

  /** The condition is needed: snapshot, unsubscribe, send. */
  lemma PanicIsReachable(e: Entry)
    ensures At(1, [Subscribe, Step.Push(e), Unsubscribe(0), Send(0)], 4).pushes == [PushState(e, [0], 0, true)]
  {
    var steps := [Subscribe, Step.Push(e), Unsubscribe(0), Send(0)];
    var s0 := Init(1);
    var s1 := Next(s0, Subscribe);
    var s2 := Next(s1, Step.Push(e));
    var s3 := Next(s2, Unsubscribe(0));
    var s4 := Next(s3, Send(0));
    assert s1.subscribers == [0] && s2.pushes == [PushState(e, [0], 0, false)];
    assert s3.chans[0].chan.closed && s3.pushes == s2.pushes;
    assert s4 == AfterOffer(s3, 0);
    hide Next;
    assert At(1, steps, 1) == s1 by { assert steps[0] == Subscribe; }
    assert At(1, steps, 2) == s2 by { assert steps[1] == Step.Push(e); }
    assert At(1, steps, 3) == s3 by { assert steps[2] == Unsubscribe(0); }
    assert At(1, steps, 4) == s4 by { assert steps[3] == Send(0); }
  }

  lemma TwoSubscribers(e: Entry)
    ensures var s := Next(Next(Next(Init(1), Subscribe), Subscribe), Step.Push(e));
            && s.chans == [Sub(Chan([], false), [], 0), Sub(Chan([], false), [], 0)]
            && s.subscribers == [0, 1] && s.pushes == [PushState(e, [0, 1], 0, false)] && s.dropped == {}
  {
    hide Insert;
    var s1 := Next(Init(1), Subscribe);
    assert s1.subscribers == [0] && s1.chans == [Sub(Chan([], false), [], 0)];
    var s2 := Next(s1, Subscribe);
    assert s2.subscribers == [0, 1] && s2.chans == [Sub(Chan([], false), [], 0), Sub(Chan([], false), [], 0)];
  }

  lemma ClosedStarvesNext(s: State)
    requires WellFormed(s) && s.subscribers == [0, 1] && |s.pushes| == 1 && |s.chans| == 2
    requires s.pushes[0].subs == [0, 1] && s.pushes[0].next == 0 && !s.pushes[0].panicked
    ensures var r := Next(Next(s, Unsubscribe(0)), Send(0));
            && r.pushes == [s.pushes[0].(panicked := true)] && r.subscribers == [1]
            && |r.chans| == 2 && r.chans[1] == s.chans[1] && r.dropped == s.dropped
  {
    var r := Next(s, Unsubscribe(0));
    assert Without([0, 1], 0) == [1];
    assert r == AfterUnsubscribe(s, 0) && r.chans[0].chan.closed;
    assert Next(r, Send(0)) == AfterOffer(r, 0);
  }

  /** The panic of one push at a channel somebody else gave up starves the subscribers behind it: the push
      is done, channel 1 is subscribed throughout and empty, and it gets nothing. */
  lemma StarvedIsReachable(e: Entry)
    ensures var s := At(1, [Subscribe, Subscribe, Step.Push(e), Unsubscribe(0), Send(0)], 5);
            && PushDone(s, 0) && s.subscribers == [1] && |s.chans| == 2
            && s.chans[1].Log() == [] && s.dropped == {}
  {
    hide Next;
    var steps := [Subscribe, Subscribe, Step.Push(e), Unsubscribe(0), Send(0)];
    TwoSubscribers(e);
    var s3 := Next(Next(Next(Init(1), Subscribe), Subscribe), Step.Push(e));
    ClosedStarvesNext(s3);
    assert At(1, steps, 1) == Next(Init(1), steps[0]);
    assert At(1, steps, 2) == Next(At(1, steps, 1), steps[1]);
    assert At(1, steps, 3) == s3;
    assert At(1, steps, 4) == Next(s3, steps[3]);
  }

  // ---- The store under every schedule -----------------------------------

  function StoreOps(steps: seq<Step>, n: nat): (ops: seq<Op>)
    requires n <= |steps|
  {
    if n == 0 then []
    else StoreOps(steps, n - 1) +
         match steps[n - 1] {
           case Push(e) => [Op.Push(e)]
           case Clear => [Op.Clear]
           case _ => []
         }
  }

  /** What a step does to the store: what the operation it is does, or nothing. */
  lemma StepStore(s: State, step: Step)
    requires WellFormed(s)
    ensures Next(s, step).store ==
            match step {
              case Push(e) => Apply(s.store, Op.Push(e))
              case Clear => Apply(s.store, Op.Clear)
              case _ => s.store
            }
  {
    hide Insert;
  }

  lemma RunLonger(capacity: nat, ops: seq<Op>, op: Op)
    requires 0 < capacity
    ensures Run(capacity, ops + [op]) == Apply(Run(capacity, ops), op)
  {
    assert (ops + [op])[..|ops|] == ops;
  }

  /** Subscribers, deliveries and reads never disturb the store: it is always the
      sequential run of the Push and Clear steps taken so far. */
  lemma {:induction false} StoreIsSequentialRun(capacity: nat, steps: seq<Step>, n: nat)
    requires 0 < capacity && n <= |steps|
    ensures At(capacity, steps, n).store == Run(capacity, StoreOps(steps, n))
  {
    hide Next, Apply, Run;
    if n == 0 {
      EmptyRun(capacity);
    } else {
      var ops, step := StoreOps(steps, n - 1), steps[n - 1];
      StoreIsSequentialRun(capacity, steps, n - 1);
      StepStore(At(capacity, steps, n - 1), step);
      if step.Push? {
        RunLonger(capacity, ops, Op.Push(step.entry));
      } else if step.Clear? {
        RunLonger(capacity, ops, Op.Clear);
      } else {
        assert ops + [] == ops;
      }
    }
  }

  lemma EmptyRun(capacity: nat)
    requires 0 < capacity
    ensures Run(capacity, []) == Empty(capacity)
  {
  }

  /** The store holds the latest pushes, in order. */
  ghost predicate HoldsLatest(s: State) {
    var queue := s.store.queue;
    && |queue| <= |s.pushes|
    && forall i :: 0 <= i < |queue| ==> queue[i] == s.pushes[|s.pushes| - |queue| + i].entry
  }

  lemma PushHoldsLatest(s: State, e: Entry)
    requires 0 < s.store.capacity && HoldsLatest(s)
    ensures HoldsLatest(AfterPush(s, e))
  {
    hide EntryBytes;
    var k := if |s.store.queue| == s.store.capacity then 1 else 0;
    assert AfterPush(s, e).store.queue == s.store.queue[k..] + [e];
  }

  lemma StepHoldsLatest(s: State, step: Step)
    requires WellFormed(s) && HoldsLatest(s)
    ensures HoldsLatest(Next(s, step))
  {
    hide Insert, AfterPush;
    if step.Push? {
      PushHoldsLatest(s, step.entry);
    } else {
      StepGrows(s, step);
    }
  }

  lemma {:induction false} StoreHoldsLatest(capacity: nat, steps: seq<Step>, n: nat)
    requires 0 < capacity && n <= |steps|
    ensures HoldsLatest(At(capacity, steps, n))
  {
    if n == 0 {
    } else {
      StoreHoldsLatest(capacity, steps, n - 1);
      StepHoldsLatest(At(capacity, steps, n - 1), steps[n - 1]);
    }
  }

  // ---- A stream client --------------------------------------------------

  /** A client of the event stream: at step `list` it reads the backfill of `limit`
      entries, at step `sub` it subscribes, and from then on it forwards what its channel
      gives it. Everything else in the schedule is arbitrary. */
  ghost predicate StreamClient(steps: seq<Step>, list: nat, sub: nat, n: nat) {
    list < sub < n <= |steps| && steps[list] == Read && steps[sub] == Subscribe
  }

  /** The channel the client obtained. */
  function ClientChan(capacity: nat, steps: seq<Step>, sub: nat): (c: nat)
    requires 0 < capacity && sub < |steps|
  {
    |At(capacity, steps, sub).chans|
  }

  function BackfillSent(capacity: nat, steps: seq<Step>, list: nat, limit: int): (r: seq<Entry>)
    requires 0 < capacity && list < |steps|
  {
    Backfill(At(capacity, steps, list).store, limit)
  }

  /** No two pushes of the schedule carry the same entry. */
  ghost predicate EntriesDistinct(s: State) {
    forall p, q :: 0 <= p < q < |s.pushes| ==> s.pushes[p].entry != s.pushes[q].entry
  }

  /** Backfill consists of pushes that took the lock before the List. */
  lemma BackfillIsOld(capacity: nat, steps: seq<Step>, list: nat, limit: int, n: nat, k: nat) returns (p: nat)
    requires 0 < capacity && list < n <= |steps| && k < |BackfillSent(capacity, steps, list, limit)|
    ensures p < |At(capacity, steps, list).pushes| <= |At(capacity, steps, n).pushes|
    ensures At(capacity, steps, n).pushes[p].entry == BackfillSent(capacity, steps, list, limit)[k]
    ensures p == |At(capacity, steps, list).pushes| - |At(capacity, steps, list).store.queue| + k
  {
    hide Next, Backfill;
    var s := At(capacity, steps, list);
    BackfillAt(s.store, limit, k);
    StoreHoldsLatest(capacity, steps, list);
    HistoryGrows(capacity, steps, list, n);
    p := |s.pushes| - |s.store.queue| + k;
  }

  /** The client's channel only ever sees pushes that took the lock after the Subscribe. */
  lemma LiveIsNew(capacity: nat, steps: seq<Step>, sub: nat, n: nat, p: nat)
    requires 0 < capacity && sub < n <= |steps| && steps[sub] == Subscribe
    requires ClientChan(capacity, steps, sub) < |At(capacity, steps, n).chans|
    requires p in At(capacity, steps, n).chans[ClientChan(capacity, steps, sub)].Log()
    ensures |At(capacity, steps, sub).pushes| <= p < |At(capacity, steps, n).pushes|
  {
    var c := ClientChan(capacity, steps, sub);
    var t := DeliveredWhileSubscribed(capacity, steps, n, c, p);
    Snapshot(capacity, steps, p, t, n);
    if t < sub {
      HistoryGrows(capacity, steps, t, sub);
    } else {
      HistoryGrows(capacity, steps, sub, t);
    }
  }

  /** No entry reaches the client both as backfill and live: the overlap the handler's
      comment warns of cannot happen. */
  lemma NoDoubleDelivery(capacity: nat, steps: seq<Step>, list: nat, sub: nat, n: nat, limit: int, k: nat, p: nat)
    requires 0 < capacity && StreamClient(steps, list, sub, n) && EntriesDistinct(At(capacity, steps, n))
    requires k < |BackfillSent(capacity, steps, list, limit)|
    requires ClientChan(capacity, steps, sub) < |At(capacity, steps, n).chans|
    requires p in At(capacity, steps, n).chans[ClientChan(capacity, steps, sub)].Log()
    ensures p < |At(capacity, steps, n).pushes|
    ensures BackfillSent(capacity, steps, list, limit)[k] != At(capacity, steps, n).pushes[p].entry
  {
    var q := BackfillIsOld(capacity, steps, list, limit, n, k);
    LiveIsNew(capacity, steps, sub, n, p);
    HistoryGrows(capacity, steps, list, sub);
  }

  /** Instead, every push that takes the lock between the List and the Subscribe is missed. */
  lemma GapIsMissed(capacity: nat, steps: seq<Step>, list: nat, sub: nat, n: nat, limit: int, p: nat, t: nat)
    requires 0 < capacity && StreamClient(steps, list, sub, n) && EntriesDistinct(At(capacity, steps, n))
    requires list < t < sub && LockedAt(capacity, steps, p, t)
    ensures ClientChan(capacity, steps, sub) < |At(capacity, steps, n).chans|
    ensures steps[t].entry !in BackfillSent(capacity, steps, list, limit)
    ensures p !in At(capacity, steps, n).chans[ClientChan(capacity, steps, sub)].Log()
  {
    LateIsNotBackfilled(capacity, steps, list, n, limit, p, t);
    EarlyIsNotLive(capacity, steps, sub, n, p, t);
  }

  lemma LateIsNotBackfilled(capacity: nat, steps: seq<Step>, list: nat, n: nat, limit: int, p: nat, t: nat)
    requires 0 < capacity && list < t < n <= |steps| && LockedAt(capacity, steps, p, t)
    requires EntriesDistinct(At(capacity, steps, n))
    ensures steps[t].entry !in BackfillSent(capacity, steps, list, limit)
  {
    HistoryGrows(capacity, steps, list, t);
    Snapshot(capacity, steps, p, t, n);
    forall k | 0 <= k < |BackfillSent(capacity, steps, list, limit)|
      ensures BackfillSent(capacity, steps, list, limit)[k] != steps[t].entry
    {
      var q := BackfillIsOld(capacity, steps, list, limit, n, k);
    }
  }

  lemma EarlyIsNotLive(capacity: nat, steps: seq<Step>, sub: nat, n: nat, p: nat, t: nat)
    requires 0 < capacity && t < sub < n <= |steps| && steps[sub] == Subscribe && LockedAt(capacity, steps, p, t)
    ensures ClientChan(capacity, steps, sub) < |At(capacity, steps, n).chans|
    ensures p !in At(capacity, steps, n).chans[ClientChan(capacity, steps, sub)].Log()
  {
    hide Next;
    StepGrows(At(capacity, steps, sub), steps[sub]);
    HistoryGrows(capacity, steps, sub + 1, n);
    Snapshot(capacity, steps, p, t, sub);
    if p in At(capacity, steps, n).chans[ClientChan(capacity, steps, sub)].Log() {
      LiveIsNew(capacity, steps, sub, n, p);
    }
  }

  lemma NewChannelListed(s: State)
    requires WellFormed(s)
    ensures |s.chans| in Next(s, Subscribe).subscribers
  {
  }

  /** From the Subscribe on a push that is done has reached the client's channel, or dropped its entry
      there, except exactly if it panicked before it got past that channel, and then because the channel
      it stopped at, maybe another client's, was unsubscribed after the push copied the list. */
  lemma LiveIsComplete(capacity: nat, steps: seq<Step>, sub: nat, n: nat, p: nat, t: nat)
    requires 0 < capacity && sub < t < n <= |steps| && steps[sub] == Subscribe && LockedAt(capacity, steps, p, t)
    requires !UnsubscribedWithin(steps, ClientChan(capacity, steps, sub), sub + 1, t)
    requires PushDone(At(capacity, steps, n), p)
    ensures var s, c := At(capacity, steps, n), ClientChan(capacity, steps, sub);
            && c < |s.chans|
            && !(p in s.chans[c].Log() && (p, c) in s.dropped)
            && (p !in s.chans[c].Log() && (p, c) !in s.dropped <==> CutOff(s.pushes[p], c))
    ensures var push := At(capacity, steps, n).pushes[p];
            CutOff(push, ClientChan(capacity, steps, sub)) ==>
              push.next < |push.subs| && UnsubscribedWithin(steps, push.subs[push.next], t, n)
  {
    hide Inv, Next, CutOff;
    var c := ClientChan(capacity, steps, sub);
    NewChannelListed(At(capacity, steps, sub));
    SubscribedUntil(capacity, steps, c, sub + 1, t);
    DonePushAccounted(capacity, steps, n, p, t, c);
    if CutOff(At(capacity, steps, n).pushes[p], c) {
      CutOffPanicked(At(capacity, steps, n).pushes[p], c);
      var u := PanickedBecause(capacity, steps, p, t, n);
      WithinLonger(steps, At(capacity, steps, n).pushes[p], t, u, n);
    }
  }

  lemma CutOffPanicked(push: PushState, c: nat)
    requires CutOff(push, c)
    ensures push.panicked
  {
  }

  lemma WithinLonger(steps: seq<Step>, push: PushState, m: nat, u: nat, n: nat)
    requires push.next < |push.subs| && u <= n <= |steps| && UnsubscribedWithin(steps, push.subs[push.next], m, u)
    ensures UnsubscribedWithin(steps, push.subs[push.next], m, n)
  {
  }

  function LiveEntries(s: State, log: seq<nat>): (r: seq<Entry>)
    requires forall i :: 0 <= i < |log| ==> log[i] < |s.pushes|
  {
    seq(|log|, i requires 0 <= i < |log| => s.pushes[log[i]].entry)
  }

  lemma BackfillDistinct(capacity: nat, steps: seq<Step>, list: nat, limit: int, n: nat)
    requires 0 < capacity && list < n <= |steps| && EntriesDistinct(At(capacity, steps, n))
    ensures Distinct(BackfillSent(capacity, steps, list, limit))
  {
    var sent := BackfillSent(capacity, steps, list, limit);
    forall i, j | 0 <= i < j < |sent| ensures sent[i] != sent[j] {
      var p := BackfillIsOld(capacity, steps, list, limit, n, i);
      var q := BackfillIsOld(capacity, steps, list, limit, n, j);
    }
  }

  lemma LiveDistinct(s: State, c: nat)
    requires Inv(s) && EntriesDistinct(s) && c < |s.chans|
    ensures var log := s.chans[c].received; forall i :: 0 <= i < |log| ==> log[i] < |s.pushes|
    ensures Distinct(LiveEntries(s, s.chans[c].received))
  {
    assert LogSound(s, c);
    var log, received := s.chans[c].Log(), s.chans[c].received;
    assert forall i :: 0 <= i < |received| ==> received[i] == log[i] && log[i] in log;
  }

  /** A stream client is never sent an entry twice, in any schedule. */
  lemma ClientSentOnce(capacity: nat, steps: seq<Step>, list: nat, sub: nat, n: nat, limit: int)
    requires 0 < capacity && StreamClient(steps, list, sub, n) && EntriesDistinct(At(capacity, steps, n))
    ensures var s, c := At(capacity, steps, n), ClientChan(capacity, steps, sub);
            && c < |s.chans|
            && (var log := s.chans[c].received; forall i :: 0 <= i < |log| ==> log[i] < |s.pushes|)
            && Distinct(BackfillSent(capacity, steps, list, limit) + LiveEntries(s, s.chans[c].received))
  {
    var s, c := At(capacity, steps, n), ClientChan(capacity, steps, sub);
    StepGrows(At(capacity, steps, sub), steps[sub]);
    HistoryGrows(capacity, steps, sub + 1, n);
    InvAlways(capacity, steps, n);
    BackfillDistinct(capacity, steps, list, limit, n);
    LiveDistinct(s, c);
    var backfill, live := BackfillSent(capacity, steps, list, limit), LiveEntries(s, s.chans[c].received);
    forall k, j | 0 <= k < |backfill| && 0 <= j < |live| ensures backfill[k] != live[j] {
      assert s.chans[c].Log()[j] == s.chans[c].received[j];
      NoDoubleDelivery(capacity, steps, list, sub, n, limit, k, s.chans[c].received[j]);
    }
    DistinctConcat(backfill, live);
  }

  lemma DistinctConcat<T>(a: seq<T>, b: seq<T>)
    requires Distinct(a) && Distinct(b)
    requires forall i, j :: 0 <= i < |a| && 0 <= j < |b| ==> a[i] != b[j]
    ensures Distinct(a + b)
  {
  }
}
