/** The one-connection listener behind a transparent session and the connection wrapper that
    releases it: a step system over any number of concurrent Accept, listener Close and
    connection Close calls (internal/proxy/transparent_loop.go). */
module Listener {
  import opened Basics

  /** sync.Once: the first caller runs the function, later ones wait until it is done. */
  datatype Once = Idle | Running(owner: nat) | Done

  /** Where a call stands. `viaConn` marks a listener Close made by the connection's Close. */
  datatype Pc =
    | AcceptStart
    | AcceptWaiting                    // served before; waits for the closed channel
    | AcceptedConn
    | AcceptFailed
    | CloseEnter(viaConn: bool)        // about to enter the listener's once
    | CloseRunning(viaConn: bool)      // inside it, channel not yet closed
    | CloseClosed(viaConn: bool)       // channel closed
    | CloseReturned
    | ConnStart                        // about to close the inner connection
    | ConnOnce                         // about to enter the wrapper's once
    | ConnLeaving                      // the callback has returned
    | ConnReturned

  datatype State = State(
    served: bool,
    closes: nat,                       // how often the closed channel was closed
    listenerOnce: Once,
    connOnce: Once,
    handedTo: Option<nat>,             // the Accept that got the connection
    calls: seq<Pc>)

  datatype Step = Accept | CloseListener | CloseConn | Advance(call: nat)

  const INIT: State := State(false, 0, Idle, Idle, None, [])

  function Move(s: State, i: nat, pc: Pc): (r: State)
    requires i < |s.calls|
  {
    s.(calls := s.calls[i := pc])
  }

  function AfterListenerClose(viaConn: bool): (pc: Pc) {
    if viaConn then ConnLeaving else CloseReturned
  }

  function AdvanceCall(s: State, i: nat): (r: State)
    requires i < |s.calls|
  {
    match s.calls[i]
    case AcceptStart =>
      if s.served then Move(s, i, AcceptWaiting)
      else Move(s, i, AcceptedConn).(served := true, handedTo := Some(i))
    case AcceptWaiting => if s.closes > 0 then Move(s, i, AcceptFailed) else s
    case CloseEnter(viaConn) =>
      (match s.listenerOnce
       case Idle => Move(s, i, CloseRunning(viaConn)).(listenerOnce := Running(i))
       case Running(_) => s
       case Done => Move(s, i, AfterListenerClose(viaConn)))
    case CloseRunning(viaConn) => Move(s, i, CloseClosed(viaConn)).(closes := s.closes + 1)
    case CloseClosed(viaConn) => Move(s, i, AfterListenerClose(viaConn)).(listenerOnce := Done)
    case ConnStart => Move(s, i, ConnOnce)
    case ConnOnce =>
      (match s.connOnce
       case Idle => Move(s, i, CloseEnter(true)).(connOnce := Running(i))
       case Running(_) => s
       case Done => Move(s, i, ConnReturned))
    case ConnLeaving => Move(s, i, ConnReturned).(connOnce := Done)
    case _ => s
  }

  /** One step; a call that must wait stays where it is. */
  function Next(s: State, step: Step): (r: State) {
    match step
    case Accept => s.(calls := s.calls + [AcceptStart])
    case CloseListener => s.(calls := s.calls + [CloseEnter(false)])
    case CloseConn => s.(calls := s.calls + [ConnStart])
    case Advance(i) => if i < |s.calls| then AdvanceCall(s, i) else s
  }

  function At(steps: seq<Step>, n: nat): (s: State)
    requires n <= |steps|
  {
    if n == 0 then INIT else Next(At(steps, n - 1), steps[n - 1])
  }

  // ---- The objects, called by one goroutine -------------------------------

  datatype AcceptResult = Conn | ErrClosed | Blocks

  /** What an Accept that nobody disturbs comes to. */
  function AcceptGives(served: bool, closes: nat): (r: AcceptResult) {
    if !served then Conn else if closes > 0 then ErrClosed else Blocks
  }

  class SingleConnListener {
    var served: bool
    var closes: nat
    var once: bool

    constructor ()
      ensures Valid() && !served && closes == 0
    {
      served, closes, once := false, 0, false;
    }

    /** The closed channel is closed exactly once, when the once fires. */
    ghost predicate Valid()
      reads this
    {
      closes == if once then 1 else 0
    }

    /** The connection the first time; afterwards an error if closed, else it would wait. */
    method Accept() returns (r: AcceptResult)
      requires Valid()
      modifies this`served
      ensures Valid() && served
      ensures r == AcceptGives(old(served), closes)
    {
      if !served {
        served := true;
        return Conn;
      }
      r := if closes > 0 then ErrClosed else Blocks;
    }

    method Close()
      requires Valid()
      modifies this`once, this`closes
      ensures Valid() && closes == 1
    {
      if !once {
        once := true;
        closes := closes + 1;
      }
    }
  }

  class CloseNotifyConn {
    const listener: SingleConnListener
    var innerCloses: nat
    var once: bool

    constructor (listener: SingleConnListener)
      ensures this.listener == listener && innerCloses == 0 && !once
    {
      this.listener := listener;
      innerCloses, once := 0, false;
    }

    /** The callback has run by the time a Close has returned. */
    ghost predicate Valid()
      reads this, listener
    {
      listener.Valid() && (once ==> listener.closes == 1)
    }

    /** Closes the inner connection every time and releases the listener the first time. */
    method Close()
      requires Valid()
      modifies this, listener`once, listener`closes
      ensures Valid() && listener.closes == 1 && innerCloses == old(innerCloses) + 1
    {
      innerCloses := innerCloses + 1;
      if !once {
        once := true;
        listener.Close();
      }
    }
  }

  // ---- What every step keeps ----------------------------------------------

  predicate InListenerOnce(pc: Pc) {
    pc.CloseRunning? || pc.CloseClosed?
  }

  predicate InConnOnce(pc: Pc) {
    pc.ConnLeaving? || ((pc.CloseEnter? || pc.CloseRunning? || pc.CloseClosed?) && pc.viaConn)
  }

  ghost predicate ListenerOnceInv(s: State) {
    && (forall i :: 0 <= i < |s.calls| ==> (InListenerOnce(s.calls[i]) <==> s.listenerOnce == Running(i)))
    && (s.listenerOnce.Running? ==> s.listenerOnce.owner < |s.calls|)
  }

  ghost predicate ConnOnceInv(s: State) {
    && (forall i :: 0 <= i < |s.calls| ==> (InConnOnce(s.calls[i]) <==> s.connOnce == Running(i)))
    && (s.connOnce.Running? ==> s.connOnce.owner < |s.calls|)
  }

  /** The channel is closed once, inside the listener's once. */
  ghost predicate CloseInv(s: State) {
    s.closes == match s.listenerOnce
                case Idle => 0
                case Running(i) => if i < |s.calls| && s.calls[i].CloseClosed? then 1 else 0
                case Done => 1
  }

  ghost predicate AcceptInv(s: State) {
    && (s.served <==> s.handedTo.Some?)
    && (s.handedTo.Some? ==> s.handedTo.value < |s.calls|)
    && (forall i :: 0 <= i < |s.calls| ==> (s.calls[i] == AcceptedConn <==> s.handedTo == Some(i)))
  }

  /** What a call that has got this far implies. */
  ghost predicate CallInv(s: State, pc: Pc) {
    && (pc == AcceptWaiting ==> s.served)
    && (pc == AcceptFailed ==> s.closes > 0)
    && (pc == CloseReturned || pc == ConnLeaving ==> s.listenerOnce == Done)
    && (pc == ConnReturned ==> s.connOnce == Done)
  }

  ghost predicate Inv(s: State) {
    && ListenerOnceInv(s) && ConnOnceInv(s) && CloseInv(s) && AcceptInv(s)
    && (forall i :: 0 <= i < |s.calls| ==> CallInv(s, s.calls[i]))
    && (s.connOnce == Done ==> s.listenerOnce == Done)
  }

  /** What a move of call i does to the calls and to the listener's once. */
  lemma ListenerMoves(s: State, i: nat)
    requires i < |s.calls|
    ensures var r, pc := AdvanceCall(s, i), s.calls[i];
            && |r.calls| == |s.calls| && (forall j :: 0 <= j < |s.calls| && j != i ==> r.calls[j] == s.calls[j])
            && r.listenerOnce == (if pc.CloseEnter? && s.listenerOnce.Idle? then Running(i)
                                  else if pc.CloseClosed? then Done else s.listenerOnce)
            && r.closes == s.closes + (if pc.CloseRunning? then 1 else 0)
            && (InListenerOnce(r.calls[i]) <==> (pc.CloseEnter? && s.listenerOnce.Idle?) || pc.CloseRunning?)
            && (r.calls[i].CloseClosed? <==> pc.CloseRunning?)
  {
  }

  lemma ListenerOnceKept(s: State, step: Step)
    requires ListenerOnceInv(s) && CloseInv(s)
    ensures ListenerOnceInv(Next(s, step)) && CloseInv(Next(s, step))
  {
    hide AdvanceCall;
    if step.Advance? && step.call < |s.calls| {
      ListenerMoves(s, step.call);
    }
  }

  /** What a move of call i does to the wrapper's once. */
  lemma ConnMoves(s: State, i: nat)
    requires i < |s.calls|
    ensures var r, pc := AdvanceCall(s, i), s.calls[i];
            && |r.calls| == |s.calls| && (forall j :: 0 <= j < |s.calls| && j != i ==> r.calls[j] == s.calls[j])
            && r.connOnce == (if pc.ConnOnce? && s.connOnce.Idle? then Running(i)
                              else if pc.ConnLeaving? then Done else s.connOnce)
            && (InConnOnce(r.calls[i]) <==>
                (pc.ConnOnce? && s.connOnce.Idle?) || (InConnOnce(pc) && !pc.ConnLeaving?))
  {
  }

  lemma ConnOnceKept(s: State, step: Step)
    requires ConnOnceInv(s)
    ensures ConnOnceInv(Next(s, step))
  {
    hide AdvanceCall;
    if step.Advance? && step.call < |s.calls| {
      ConnMoves(s, step.call);
    }
  }

  lemma AcceptKept(s: State, step: Step)
    requires AcceptInv(s)
    ensures AcceptInv(Next(s, step))
  {
  }

  /** Nothing done is ever undone. */
  ghost predicate Onward(s: State, r: State) {
    && (s.served ==> r.served)
    && s.closes <= r.closes
    && (s.listenerOnce == Done ==> r.listenerOnce == Done)
    && (s.connOnce == Done ==> r.connOnce == Done)
  }

  lemma StepOnward(s: State, step: Step)
    requires Inv(s)
    ensures Onward(s, Next(s, step))
  {
  }

  lemma MovedCallKept(s: State, i: nat)
    requires Inv(s) && i < |s.calls|
    ensures var r := AdvanceCall(s, i);
            && |r.calls| == |s.calls| && CallInv(r, r.calls[i])
            && (forall j :: 0 <= j < |s.calls| && j != i ==> r.calls[j] == s.calls[j])
            && (r.connOnce == Done ==> r.listenerOnce == Done)
  {
    assert CallInv(s, s.calls[i]);
  }

  lemma CallsKept(s: State, step: Step)
    requires Inv(s)
    ensures var r := Next(s, step); forall i :: 0 <= i < |r.calls| ==> CallInv(r, r.calls[i])
    ensures Next(s, step).connOnce == Done ==> Next(s, step).listenerOnce == Done
  {
    hide AdvanceCall, AcceptInv, CloseInv, ListenerOnceInv, ConnOnceInv;
    var r := Next(s, step);
    StepOnward(s, step);
    if step.Advance? && step.call < |s.calls| {
      MovedCallKept(s, step.call);
    }
    forall i | 0 <= i < |r.calls| ensures CallInv(r, r.calls[i]) {
      assert i < |s.calls| ==> CallInv(s, s.calls[i]);
    }
  }

  lemma NextKeeps(s: State, step: Step)
    requires Inv(s)
    ensures Inv(Next(s, step))
  {
    ListenerOnceKept(s, step);
    ConnOnceKept(s, step);
    AcceptKept(s, step);
    CallsKept(s, step);
  }

  lemma {:induction false} InvAlways(steps: seq<Step>, n: nat)
    requires n <= |steps|
    ensures Inv(At(steps, n))
  {
    if n == 0 {
    } else {
      InvAlways(steps, n - 1);
      NextKeeps(At(steps, n - 1), steps[n - 1]);
    }
  }

  // ---- Theorems -----------------------------------------------------------

  /** The connection is handed out at most once and the channel is closed at most once. */
  lemma HandedOutOnce(steps: seq<Step>, n: nat, i: nat, j: nat)
    requires n <= |steps| && i < |At(steps, n).calls| && j < |At(steps, n).calls|
    requires At(steps, n).calls[i] == At(steps, n).calls[j] == AcceptedConn
    ensures i == j
  {
    InvAlways(steps, n);
  }

  lemma ClosedOnce(steps: seq<Step>, n: nat)
    requires n <= |steps|
    ensures At(steps, n).closes <= 1
  {
    InvAlways(steps, n);
  }

  predicate IsCloser(pc: Pc) {
    !(pc.AcceptStart? || pc.AcceptWaiting? || pc.AcceptedConn? || pc.AcceptFailed?)
  }

  /** A call of either kind of Close was begun by a step of the schedule. */
  lemma {:induction false} CloserHasStep(steps: seq<Step>, n: nat, i: nat) returns (t: nat)
    requires n <= |steps| && i < |At(steps, n).calls| && IsCloser(At(steps, n).calls[i])
    ensures t < n && (steps[t] == CloseListener || steps[t] == CloseConn)
  {
    var s := At(steps, n - 1);
    if steps[n - 1] == CloseListener || steps[n - 1] == CloseConn {
      t := n - 1;
    } else {
      CloserBefore(s, steps[n - 1], i);
      t := CloserHasStep(steps, n - 1, i);
    }
  }

  lemma CloserBefore(s: State, step: Step, i: nat)
    requires step.Accept? || step.Advance?
    requires i < |Next(s, step).calls| && IsCloser(Next(s, step).calls[i])
    ensures i < |s.calls| && IsCloser(s.calls[i])
  {
  }

  lemma {:induction false} ClosedByCaller(steps: seq<Step>, n: nat) returns (t: nat)
    requires n <= |steps| && At(steps, n).closes > 0
    ensures t < n && (steps[t] == CloseListener || steps[t] == CloseConn)
  {
    if At(steps, n - 1).closes > 0 {
      t := ClosedByCaller(steps, n - 1);
    } else {
      t := CloserHasStep(steps, n - 1, steps[n - 1].call);
    }
  }

  /** Every Accept that returns an error does so after a Close was called. */
  lemma ErrorFollowsClose(steps: seq<Step>, n: nat, i: nat) returns (t: nat)
    requires n <= |steps| && i < |At(steps, n).calls| && At(steps, n).calls[i] == AcceptFailed
    ensures t < n && (steps[t] == CloseListener || steps[t] == CloseConn)
  {
    InvAlways(steps, n);
    assert CallInv(At(steps, n), AcceptFailed);
    t := ClosedByCaller(steps, n);
  }

  /** Once the wrapped connection's Close, or the listener's, has returned, no Accept is blocked:
      a waiting one returns as soon as it is scheduled. */
  lemma ReleasedAfterClose(steps: seq<Step>, n: nat, closer: nat, i: nat)
    requires n <= |steps| && closer < |At(steps, n).calls| && i < |At(steps, n).calls|
    requires At(steps, n).calls[closer] in {ConnReturned, CloseReturned}
    requires At(steps, n).calls[i] in {AcceptStart, AcceptWaiting}
    ensures var r := Next(At(steps, n), Advance(i));
            |r.calls| == |At(steps, n).calls| && r.calls[i] in {AcceptedConn, AcceptWaiting, AcceptFailed}
            && (At(steps, n).calls[i] == AcceptWaiting ==> r.calls[i] == AcceptFailed)
            && (r.calls[i] == AcceptWaiting ==> Next(r, Advance(i)).calls == r.calls[i := AcceptFailed])
  {
    InvAlways(steps, n);
    assert CallInv(At(steps, n), At(steps, n).calls[closer]);
  }

  predicate Returned(pc: Pc) {
    pc.AcceptedConn? || pc.AcceptFailed? || pc.CloseReturned? || pc.ConnReturned?
  }

  /** No deadlock: when nothing can move any more, all calls have returned, except Accepts waiting
      on a listener that nobody has asked to close. */
  lemma StuckOnlyUnclosed(steps: seq<Step>, n: nat, i: nat)
    requires n <= |steps| && i < |At(steps, n).calls| && !Returned(At(steps, n).calls[i])
    requires forall j :: 0 <= j < |At(steps, n).calls| ==> Next(At(steps, n), Advance(j)) == At(steps, n)
    ensures At(steps, n).calls[i] == AcceptWaiting && At(steps, n).closes == 0
    ensures forall k :: 0 <= k < |At(steps, n).calls| ==> At(steps, n).calls[k] in {AcceptWaiting, AcceptedConn}
  {
    InvAlways(steps, n);
    var s := At(steps, n);
    forall j | 0 <= j < |s.calls|
      ensures Returned(s.calls[j]) || (s.calls[j] == AcceptWaiting && s.closes == 0)
    {
      StuckCall(s, j);
    }
    forall k | 0 <= k < |s.calls| ensures s.calls[k] in {AcceptWaiting, AcceptedConn} {
      assert CallInv(s, s.calls[k]);
    }
  }

  /** Whoever is inside a once can move: the listener's owner always, the wrapper's owner unless
      it waits for the listener's. */
  lemma OwnersMove(s: State, k: nat)
    requires k < |s.calls|
    ensures InListenerOnce(s.calls[k]) ==> Next(s, Advance(k)) != s
    ensures InConnOnce(s.calls[k]) && !s.listenerOnce.Running? ==> Next(s, Advance(k)) != s
    ensures Next(s, Advance(k)) == s ==>
              Returned(s.calls[k]) || s.calls[k].AcceptWaiting? || s.calls[k].CloseEnter? || s.calls[k].ConnOnce?
  {
    assert |Next(s, Advance(k)).calls| == |s.calls|;
    assert Next(s, Advance(k)).calls[k] != s.calls[k] ==> Next(s, Advance(k)) != s;
  }

  lemma StuckCall(s: State, j: nat)
    requires Inv(s) && j < |s.calls|
    requires forall k :: 0 <= k < |s.calls| ==> Next(s, Advance(k)) == s
    ensures Returned(s.calls[j]) || (s.calls[j] == AcceptWaiting && s.closes == 0)
  {
    forall k | 0 <= k < |s.calls|
      ensures !InListenerOnce(s.calls[k]) && !(InConnOnce(s.calls[k]) && !s.listenerOnce.Running?)
    {
      OwnersMove(s, k);
    }
    OwnersMove(s, j);
    assert Next(s, Advance(j)).calls[j] == s.calls[j];
  }

  /** Step t is the one in which an Accept looks whether the connection was handed out. */
  ghost predicate AcceptSteps(steps: seq<Step>, t: nat) {
    && t < |steps| && steps[t].Advance? && steps[t].call < |At(steps, t).calls|
    && At(steps, t).calls[steps[t].call] == AcceptStart
  }

  lemma {:induction false} ServedExactly(steps: seq<Step>, n: nat)
    requires n <= |steps|
    ensures At(steps, n).served <==> exists t :: 0 <= t < n && AcceptSteps(steps, t)
  {
    if n == 0 {
    } else {
      ServedExactly(steps, n - 1);
      assert At(steps, n).served <==> At(steps, n - 1).served || AcceptSteps(steps, n - 1);
    }
  }

  /** In every schedule the connection goes to the first Accept that takes its step, and only to it,
      whatever Closes came before: Accept looks only at whether it was handed out. */
  lemma FirstAcceptGetsConn(steps: seq<Step>, n: nat)
    requires AcceptSteps(steps, n)
    ensures steps[n].call < |At(steps, n + 1).calls|
    ensures At(steps, n + 1).calls[steps[n].call] == AcceptedConn <==>
            !exists t :: 0 <= t < n && AcceptSteps(steps, t)
  {
    ServedExactly(steps, n);
  }

  lemma AcceptAfterCloseReachable()
    ensures var s := At([CloseListener, Advance(0), Advance(0), Advance(0), Accept, Advance(1)], 6);
            s.calls == [CloseReturned, AcceptedConn] && s.closes == 1
  {
    var steps := [CloseListener, Advance(0), Advance(0), Advance(0), Accept, Advance(1)];
    var s1 := Next(INIT, CloseListener);
    var s2 := Next(s1, Advance(0));
    var s3 := Next(s2, Advance(0));
    var s4 := Next(s3, Advance(0));
    var s5 := Next(s4, Accept);
    assert At(steps, 1) == s1 && At(steps, 2) == s2 && At(steps, 3) == s3 && At(steps, 4) == s4 && At(steps, 5) == s5;
  }

  // ---- The step system with one caller is the objects ----------------------

  /** A call begun in state s and then moved k times with nobody else moving. */
  function Solo(s: State, begin: Step, k: nat): (r: State) {
    if k == 0 then Next(s, begin) else Next(Solo(s, begin, k - 1), Advance(|s.calls|))
  }

  /** The state with one more call, standing at pc. */
  function With(s: State, pc: Pc): (r: State) {
    s.(calls := s.calls + [pc])
  }

  lemma MoveLast(s: State, pc: Pc, pc': Pc)
    ensures Move(With(s, pc), |s.calls|, pc') == With(s, pc')
  {
  }

  /** Where a call that came to this result stands. */
  function PcOf(r: AcceptResult): (pc: Pc) {
    match r
    case Conn => AcceptedConn
    case ErrClosed => AcceptFailed
    case Blocks => AcceptWaiting
  }

  /** One move of the last call, from where it stands. */
  lemma SoloMoves(s: State, viaConn: bool)
    ensures var i := |s.calls|;
            && Next(With(s, AcceptStart), Advance(i)) ==
               (if s.served then With(s, AcceptWaiting)
                else With(s.(served := true, handedTo := Some(i)), AcceptedConn))
            && Next(With(s, AcceptWaiting), Advance(i)) ==
               With(s, if s.closes > 0 then AcceptFailed else AcceptWaiting)
            && Next(With(s, CloseRunning(viaConn)), Advance(i)) ==
               With(s.(closes := s.closes + 1), CloseClosed(viaConn))
            && Next(With(s, CloseClosed(viaConn)), Advance(i)) ==
               With(s.(listenerOnce := Done), AfterListenerClose(viaConn))
            && Next(With(s, ConnStart), Advance(i)) == With(s, ConnOnce)
            && Next(With(s, ConnLeaving), Advance(i)) == With(s.(connOnce := Done), ConnReturned)
  {
    MoveLast(s, AcceptStart, AcceptWaiting);
    MoveLast(s, AcceptStart, AcceptedConn);
    MoveLast(s, AcceptWaiting, AcceptFailed);
    MoveLast(s, CloseRunning(viaConn), CloseClosed(viaConn));
    MoveLast(s, CloseClosed(viaConn), AfterListenerClose(viaConn));
    MoveLast(s, ConnStart, ConnOnce);
    MoveLast(s, ConnLeaving, ConnReturned);
  }

  /** One move into a once that is not running. */
  lemma SoloEnters(s: State, viaConn: bool)
    ensures var i := |s.calls|;
            && (s.listenerOnce.Idle? ==> Next(With(s, CloseEnter(viaConn)), Advance(i)) ==
                                         With(s.(listenerOnce := Running(i)), CloseRunning(viaConn)))
            && (s.listenerOnce.Done? ==> Next(With(s, CloseEnter(viaConn)), Advance(i)) ==
                                         With(s, AfterListenerClose(viaConn)))
            && (s.connOnce.Idle? ==> Next(With(s, ConnOnce), Advance(i)) ==
                                     With(s.(connOnce := Running(i)), CloseEnter(true)))
            && (s.connOnce.Done? ==> Next(With(s, ConnOnce), Advance(i)) == With(s, ConnReturned))
  {
    MoveLast(s, CloseEnter(viaConn), CloseRunning(viaConn));
    MoveLast(s, CloseEnter(viaConn), AfterListenerClose(viaConn));
    MoveLast(s, ConnOnce, CloseEnter(true));
    MoveLast(s, ConnOnce, ConnReturned);
  }

  lemma SoloBegins(s: State)
    ensures Next(s, Accept) == With(s, AcceptStart)
    ensures Next(s, CloseListener) == With(s, CloseEnter(false))
    ensures Next(s, CloseConn) == With(s, ConnStart)
  {
  }

  /** A call that has returned stays where it is. */
  lemma SoloStays(s: State, pc: Pc)
    requires Returned(pc)
    ensures Next(With(s, pc), Advance(|s.calls|)) == With(s, pc)
  {
  }

  lemma {:induction false} SoloDone(s: State, begin: Step, left: State, pc: Pc, k: nat, n: nat)
    requires k <= n && |left.calls| == |s.calls| && Returned(pc) && Solo(s, begin, k) == With(left, pc)
    ensures Solo(s, begin, n) == With(left, pc)
  {
    hide Next;
    if k == n {
    } else {
      SoloDone(s, begin, left, pc, k, n - 1);
      SoloStays(left, pc);
    }
  }

  /** Undisturbed, an Accept of the step system does what the object does. */
  lemma SoloAccept(s: State)
    ensures var taken := s.(served := true, handedTo := if s.served then s.handedTo else Some(|s.calls|));
            Solo(s, Accept, 2) == With(taken, PcOf(AcceptGives(s.served, s.closes)))
  {
    hide Next;
    var taken := s.(served := true, handedTo := if s.served then s.handedTo else Some(|s.calls|));
    SoloBegins(s);
    SoloMoves(s, false);
    assert Solo(s, Accept, 1) == With(taken, if s.served then AcceptWaiting else AcceptedConn);
    SoloMoves(taken, false);
    SoloStays(taken, AcceptedConn);
  }

  lemma ClosesNow(s: State)
    requires Inv(s)
    ensures s.listenerOnce.Idle? ==> s.closes == 0
    ensures s.listenerOnce.Done? ==> s.closes == 1
    ensures s.connOnce.Done? ==> s.listenerOnce.Done?
  {
  }

  /** Three moves take a call through the listener's once. */
  lemma SoloThroughOnce(s: State, begin: Step, base: State, viaConn: bool, k: nat) returns (n: nat)
    requires |base.calls| == |s.calls| && !base.listenerOnce.Running?
    requires base.closes == if base.listenerOnce.Done? then 1 else 0
    requires Solo(s, begin, k) == With(base, CloseEnter(viaConn))
    ensures k < n <= k + 3
    ensures Solo(s, begin, n) == With(base.(listenerOnce := Done, closes := 1), AfterListenerClose(viaConn))
  {
    hide Next;
    SoloEnters(base, viaConn);
    n := k + 1;
    assert Solo(s, begin, k + 1) == Next(Solo(s, begin, k), Advance(|s.calls|));
    if base.listenerOnce.Idle? {
      var running := base.(listenerOnce := Running(|s.calls|));
      SoloMoves(running, viaConn);
      assert Solo(s, begin, k + 2) == With(running.(closes := 1), CloseClosed(viaConn));
      SoloMoves(running.(closes := 1), viaConn);
      n := k + 3;
    }
  }

  /** Undisturbed, a listener Close does what the object does: the channel is closed, once. */
  lemma SoloClose(s: State)
    requires Inv(s) && !s.listenerOnce.Running?
    ensures Solo(s, CloseListener, 3) == With(s.(listenerOnce := Done, closes := 1), CloseReturned)
  {
    hide Next, Inv;
    SoloBegins(s);
    ClosesNow(s);
    var n := SoloThroughOnce(s, CloseListener, s, false, 0);
    SoloDone(s, CloseListener, s.(listenerOnce := Done, closes := 1), CloseReturned, n, 3);
  }

  /** Undisturbed, a connection Close does what the object does: it returns with the listener released. */
  lemma SoloConnClose(s: State)
    requires Inv(s) && !s.listenerOnce.Running? && !s.connOnce.Running?
    ensures Solo(s, CloseConn, 6) == With(s.(listenerOnce := Done, connOnce := Done, closes := 1), ConnReturned)
  {
    hide Next, Inv;
    var done := s.(listenerOnce := Done, connOnce := Done, closes := 1);
    SoloBegins(s);
    ClosesNow(s);
    SoloMoves(s, true);
    SoloEnters(s, true);
    assert Solo(s, CloseConn, 1) == With(s, ConnOnce);
    if s.connOnce.Done? {
      assert Solo(s, CloseConn, 2) == With(s, ConnReturned);
      SoloDone(s, CloseConn, done, ConnReturned, 2, 6);
    } else {
      var inside := s.(connOnce := Running(|s.calls|));
      assert Solo(s, CloseConn, 2) == With(inside, CloseEnter(true));
      var n := SoloThroughOnce(s, CloseConn, inside, true, 2);
      SoloMoves(inside.(listenerOnce := Done, closes := 1), true);
      assert Solo(s, CloseConn, n + 1) == With(done, ConnReturned);
      SoloDone(s, CloseConn, done, ConnReturned, n + 1, 6);
    }
  }
}
