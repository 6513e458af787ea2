/** The host-certificate cache: double-checked lookup under a read-write lock, first as
    the cache object seen by one caller, then as a step system over any number of
    concurrent callers with every lock operation a step of its own
    (internal/proxy/mitm_cert_cache.go). */
module CertCache {
  import opened Basics

  /** A generated certificate; no two generations need agree on the serial. */
  datatype Cert = Cert(host: string, serial: nat)

  /** The host a certificate is made for: SNI, else the local address, else localhost. */
  function HostForHello(serverName: string, localAddr: Option<string>): (host: string)
    ensures host != ""
    ensures serverName != "" ==> host == serverName
    ensures serverName == "" ==>
              || (localAddr.Some? && host == localAddr.value)
              || (host == "localhost" && localAddr in {None, Some("")})
  {
    if serverName != "" then serverName
    else if localAddr.Some? && localAddr.value != "" then localAddr.value
    else "localhost"
  }

  /** What one undisturbed call does: the cache afterwards and the result (None: generation failed). */
  function Fetched(certs: map<string, Cert>, host: string, outcome: Option<nat>)
    : (r: (map<string, Cert>, Option<Cert>))
  {
    if host in certs then (certs, Some(certs[host]))
    else if outcome.Some? then (certs[host := Cert(host, outcome.value)], Some(Cert(host, outcome.value)))
    else (certs, None)
  }

  class Cache {
    var certs: map<string, Cert>

    constructor ()
      ensures certs == map[]
    {
      certs := map[];
    }

    /** `outcome` is what key generation and signing will yield if they are needed. */
    method GetCertificate(serverName: string, localAddr: Option<string>, outcome: Option<nat>) returns (r: Option<Cert>)
      modifies this
      ensures (certs, r) == Fetched(old(certs), HostForHello(serverName, localAddr), outcome)
    {
      var host := HostForHello(serverName, localAddr);
      if host in certs {
        return Some(certs[host]);
      }
      r := CertOrGenerate(host, outcome);
    }

    method CertOrGenerate(host: string, outcome: Option<nat>) returns (r: Option<Cert>)
      modifies this
      ensures (certs, r) == Fetched(old(certs), host, outcome)
    {
      if host in certs {
        return Some(certs[host]);
      }
      if outcome.None? {
        return None;
      }
      var cert := Cert(host, outcome.value);
      certs := certs[host := cert];
      r := Some(cert);
    }
  }

  // ---- Concurrent callers -------------------------------------------------

  datatype Pc =
    | Start                              // about to take the read lock
    | Reading                            // read lock held
    | Looked(found: Option<Cert>)        // read lock held, lookup done
    | Missed                             // no lock; about to take the write lock
    | Writing                            // write lock held
    | Generating                         // write lock held, second lookup missed
    | Storing(cert: Cert)                // write lock held, certificate made
    | Leaving(result: Option<Cert>)      // write lock held, result decided
    | Returned(result: Option<Cert>)

  datatype Call = Call(host: string, pc: Pc)

  datatype State = State(
    certs: map<string, Cert>,
    readers: set<nat>,
    writer: Option<nat>,
    calls: seq<Call>,
    generated: seq<Cert>)                // every successful generation, in order

  /** `Advance` moves one call by one step; `outcome` matters only where it generates. */
  datatype Step = Begin(host: string) | Advance(call: nat, outcome: Option<nat>)

  const INIT: State := State(map[], {}, None, [], [])

  function Move(s: State, i: nat, pc: Pc): (r: State)
    requires i < |s.calls|
  {
    s.(calls := s.calls[i := s.calls[i].(pc := pc)])
  }

  /** One step; a call that must wait for a lock stays where it is. */
  function Next(s: State, step: Step): (r: State) {
    match step
    case Begin(host) => s.(calls := s.calls + [Call(host, Start)])
    case Advance(i, outcome) =>
      if i >= |s.calls| then s
      else
        var host := s.calls[i].host;
        match s.calls[i].pc
        case Start => if s.writer.None? then Move(s, i, Reading).(readers := s.readers + {i}) else s
        case Reading => Move(s, i, Looked(if host in s.certs then Some(s.certs[host]) else None))
        case Looked(found) => Move(s, i, if found.Some? then Returned(found) else Missed).(readers := s.readers - {i})
        case Missed => if s.writer.None? && s.readers == {} then Move(s, i, Writing).(writer := Some(i)) else s
        case Writing => Move(s, i, if host in s.certs then Leaving(Some(s.certs[host])) else Generating)
        case Generating =>
          if outcome.None? then Move(s, i, Leaving(None))
          else
            var cert := Cert(host, outcome.value);
            Move(s, i, Storing(cert)).(generated := s.generated + [cert])
        case Storing(cert) => Move(s, i, Leaving(Some(cert))).(certs := s.certs[host := cert])
        case Leaving(result) => Move(s, i, Returned(result)).(writer := None)
        case Returned(_) => s
  }

  function At(steps: seq<Step>, n: nat): (s: State)
    requires n <= |steps|
  {
    if n == 0 then INIT else Next(At(steps, n - 1), steps[n - 1])
  }

  predicate HoldsRead(pc: Pc) {
    pc.Reading? || pc.Looked?
  }

  predicate HoldsWrite(pc: Pc) {
    pc.Writing? || pc.Generating? || pc.Storing? || pc.Leaving?
  }

  /** The readers of the lock are the calls inside the read section. */
  ghost predicate ReadersInv(s: State) {
    && (forall i :: i in s.readers ==> i < |s.calls|)
    && (forall i :: 0 <= i < |s.calls| ==> (HoldsRead(s.calls[i].pc) <==> i in s.readers))
  }

  /** The writer is the one call inside the write section, and excludes readers. */
  ghost predicate WriterInv(s: State) {
    && (s.writer.Some? ==> s.writer.value < |s.calls| && s.readers == {})
    && (forall i :: 0 <= i < |s.calls| ==> (HoldsWrite(s.calls[i].pc) <==> s.writer == Some(i)))
  }

  /** What a call knows about its host at each point. */
  ghost predicate CallInv(s: State, c: Call) {
    match c.pc
    case Looked(Some(cert)) => c.host in s.certs && s.certs[c.host] == cert
    case Leaving(Some(cert)) => c.host in s.certs && s.certs[c.host] == cert
    case Returned(Some(cert)) => c.host in s.certs && s.certs[c.host] == cert
    case Generating => c.host !in s.certs && forall g :: g in s.generated ==> g.host != c.host
    case Storing(cert) => c.host !in s.certs && cert.host == c.host && cert in s.generated
    case _ => true
  }

  /** Every certificate ever generated is cached, except one its maker is about to store. */
  ghost predicate GeneratedInv(s: State) {
    && (forall g :: g in s.generated ==>
          || (g.host in s.certs && s.certs[g.host] == g)
          || (s.writer.Some? && s.writer.value < |s.calls| && s.calls[s.writer.value].pc == Storing(g)))
    && (forall i, j :: 0 <= i < j < |s.generated| ==> s.generated[i].host != s.generated[j].host)
    && (forall h :: h in s.certs ==> s.certs[h].host == h && s.certs[h] in s.generated)
  }

  ghost predicate Inv(s: State) {
    && ReadersInv(s) && WriterInv(s)
    && (forall i :: 0 <= i < |s.calls| ==> CallInv(s, s.calls[i]))
    && GeneratedInv(s)
  }

  lemma ReadersKept(s: State, step: Step)
    requires ReadersInv(s)
    ensures ReadersInv(Next(s, step))
  {
  }

  lemma WriterKept(s: State, step: Step)
    requires ReadersInv(s) && WriterInv(s)
    ensures WriterInv(Next(s, step))
  {
  }

  /** What the moved call knows afterwards. */
  lemma MovedCallKept(s: State, i: nat, outcome: Option<nat>)
    requires Inv(s) && i < |s.calls|
    ensures var r := Next(s, Advance(i, outcome)); i < |r.calls| && CallInv(r, r.calls[i])
  {
    assert CallInv(s, s.calls[i]);
  }

  /** A call that does not move keeps what it knows: certificates are only added, and only by the
      writer, which excludes every call that relies on one being absent. */
  lemma StillCallKept(s: State, i: nat, outcome: Option<nat>, j: nat)
    requires Inv(s) && i < |s.calls| && j < |s.calls| && j != i
    ensures var r := Next(s, Advance(i, outcome)); j < |r.calls| && r.calls[j] == s.calls[j] && CallInv(r, r.calls[j])
  {
    assert CallInv(s, s.calls[i]) && CallInv(s, s.calls[j]);
  }

  lemma CallsKept(s: State, step: Step, j: nat)
    requires Inv(s) && j < |Next(s, step).calls|
    ensures CallInv(Next(s, step), Next(s, step).calls[j])
  {
    match step
    case Begin(host) =>
      assert j < |s.calls| ==> CallInv(s, s.calls[j]);
    case Advance(i, outcome) =>
      if i >= |s.calls| {
        assert CallInv(s, s.calls[j]);
      } else if i == j {
        MovedCallKept(s, i, outcome);
      } else {
        assert |Next(s, step).calls| == |s.calls|;
        StillCallKept(s, i, outcome, j);
      }
  }

  lemma GeneratedKept(s: State, step: Step)
    requires Inv(s)
    ensures GeneratedInv(Next(s, step))
  {
    if step.Advance? && step.call < |s.calls| {
      assert CallInv(s, s.calls[step.call]);
    }
  }

  lemma {:induction false} InvAlways(steps: seq<Step>, n: nat)
    requires n <= |steps|
    ensures Inv(At(steps, n))
  {
    if n == 0 {
    } else {
      InvAlways(steps, n - 1);
      var s, step := At(steps, n - 1), steps[n - 1];
      ReadersKept(s, step);
      WriterKept(s, step);
      GeneratedKept(s, step);
      forall j | 0 <= j < |Next(s, step).calls| ensures CallInv(Next(s, step), Next(s, step).calls[j]) {
        CallsKept(s, step, j);
      }
    }
  }

  /** However calls interleave, generation succeeds at most once for a host. */
  lemma GeneratedOnce(steps: seq<Step>, n: nat, i: nat, j: nat)
    requires n <= |steps| && i < |At(steps, n).generated| && j < |At(steps, n).generated|
    requires At(steps, n).generated[i].host == At(steps, n).generated[j].host
    ensures i == j
  {
    InvAlways(steps, n);
  }

  /** A step never changes a cached certificate or a result already returned. */
  lemma StepStable(s: State, step: Step)
    requires Inv(s)
    ensures forall h :: h in s.certs ==> h in Next(s, step).certs && Next(s, step).certs[h] == s.certs[h]
    ensures |s.calls| <= |Next(s, step).calls|
    ensures forall i :: 0 <= i < |s.calls| ==> Next(s, step).calls[i].host == s.calls[i].host
    ensures forall i :: 0 <= i < |s.calls| && s.calls[i].pc.Returned? ==> Next(s, step).calls[i] == s.calls[i]
  {
    if step.Advance? && step.call < |s.calls| {
      assert CallInv(s, s.calls[step.call]);
    }
  }

  lemma {:induction false} Stable(steps: seq<Step>, m: nat, n: nat, h: string)
    requires m <= n <= |steps| && h in At(steps, m).certs
    ensures h in At(steps, n).certs && At(steps, n).certs[h] == At(steps, m).certs[h]
  {
    if m == n {
    } else {
      Stable(steps, m, n - 1, h);
      InvAlways(steps, n - 1);
      StepStable(At(steps, n - 1), steps[n - 1]);
    }
  }

  /** All successful calls for a host return the same certificate, at any two moments of any run, and it is
      one for that host. */
  lemma SameCertificateForever(steps: seq<Step>, m: nat, n: nat, i: nat, j: nat)
    requires m <= n <= |steps| && i < |At(steps, m).calls| && j < |At(steps, n).calls|
    requires var c, d := At(steps, m).calls[i], At(steps, n).calls[j];
             c.host == d.host && c.pc.Returned? && c.pc.result.Some? && d.pc.Returned? && d.pc.result.Some?
    ensures At(steps, m).calls[i].pc.result == At(steps, n).calls[j].pc.result
    ensures At(steps, m).calls[i].pc.result.value.host == At(steps, m).calls[i].host
  {
    InvAlways(steps, m);
    InvAlways(steps, n);
    var c, d := At(steps, m).calls[i], At(steps, n).calls[j];
    assert CallInv(At(steps, m), c) && CallInv(At(steps, n), d);
    Stable(steps, m, n, c.host);
  }

  /** A state whose cache and record of generations are those of another. */
  ghost predicate SameCache(s: State, r: State) {
    s.certs == r.certs && s.generated == r.generated
  }

  /** While a call is on its way out of the write section nobody else can touch the cache. */
  lemma LeavingExcludesOthers(s: State, step: Step, i: nat)
    requires Inv(s) && i < |s.calls| && s.calls[i].pc.Leaving?
    requires !(step.Advance? && step.call == i)
    ensures SameCache(s, Next(s, step)) && i < |Next(s, step).calls| && Next(s, step).calls[i] == s.calls[i]
  {
  }

  /** How a call comes to leave with a failure. */
  lemma LeavesAfterFailure(s: State, step: Step, i: nat)
    requires i < |Next(s, step).calls| && Next(s, step).calls[i].pc == Leaving(None)
    ensures i < |s.calls|
    ensures s.calls[i].pc == Leaving(None) || (s.calls[i].pc == Generating && step == Advance(i, None))
    ensures s.calls[i].pc == Leaving(None) ==> !(step.Advance? && step.call == i)
    ensures s.calls[i].pc == Generating ==> SameCache(s, Next(s, step))
  {
  }

  lemma {:induction false} FailedWhileLeaving(steps: seq<Step>, n: nat, i: nat) returns (t: nat)
    requires n <= |steps| && i < |At(steps, n).calls| && At(steps, n).calls[i].pc == Leaving(None)
    ensures t < n && steps[t] == Advance(i, None)
    ensures i < |At(steps, t).calls| && At(steps, t).calls[i].pc == Generating
    ensures forall v :: t <= v <= n ==> SameCache(At(steps, t), At(steps, v))
  {
    hide Next, Inv;
    if n == 0 {
      assert false;
    } else {
      var s := At(steps, n - 1);
      LeavesAfterFailure(s, steps[n - 1], i);
      if s.calls[i].pc == Leaving(None) {
        InvAlways(steps, n - 1);
        LeavingExcludesOthers(s, steps[n - 1], i);
        t := FailedWhileLeaving(steps, n - 1, i);
      } else {
        t := n - 1;
      }
    }
  }

  /** How a call comes to have returned a failure. */
  lemma ReturnsAfterLeaving(s: State, step: Step, i: nat)
    requires i < |Next(s, step).calls| && Next(s, step).calls[i].pc == Returned(None)
    ensures i < |s.calls|
    ensures s.calls[i].pc == Returned(None) ||
            (s.calls[i].pc == Leaving(None) && step.Advance? && step.call == i
             && SameCache(s, Next(s, step)) && Next(s, step).writer == None)
  {
  }

  /** In every schedule a call fails only by its own generation, and a failed generation leaves no trace:
      at step t it fails, at step u the call returns and frees the lock, and from t to u, whatever the
      others do, the cache stays as it was, without the host. */
  lemma {:induction false} FailureLeavesNoTrace(steps: seq<Step>, n: nat, i: nat) returns (t: nat, u: nat)
    requires n <= |steps| && i < |At(steps, n).calls| && At(steps, n).calls[i].pc == Returned(None)
    ensures t < u < n && steps[t] == Advance(i, None) && steps[u].Advance? && steps[u].call == i
    ensures i < |At(steps, t).calls| && At(steps, t).calls[i].pc == Generating
    ensures At(steps, t).calls[i].host !in At(steps, t).certs
    ensures forall v :: t <= v <= u + 1 ==> SameCache(At(steps, t), At(steps, v))
    ensures At(steps, u + 1).writer == None
  {
    hide Next;
    if n == 0 {
      assert false;
    } else {
      var s := At(steps, n - 1);
      ReturnsAfterLeaving(s, steps[n - 1], i);
      if s.calls[i].pc == Returned(None) {
        t, u := FailureLeavesNoTrace(steps, n - 1, i);
      } else {
        u := n - 1;
        t := FailedWhileLeaving(steps, u, i);
        InvAlways(steps, t);
        assert CallInv(At(steps, t), At(steps, t).calls[i]);
      }
    }
  }

  /** A call begun in state s and then moved k times with nobody else moving. */
  function Solo(s: State, host: string, outcome: Option<nat>, k: nat): (r: State) {
    if k == 0 then Next(s, Begin(host)) else Next(Solo(s, host, outcome, k - 1), Advance(|s.calls|, outcome))
  }

  /** The state with one more call, standing at pc. */
  function With(s: State, host: string, pc: Pc): (r: State) {
    s.(calls := s.calls + [Call(host, pc)])
  }

  lemma MoveLast(s: State, host: string, pc: Pc, pc': Pc)
    ensures Move(With(s, host, pc), |s.calls|, pc') == With(s, host, pc')
  {
  }

  lemma SoloLooks(s: State, host: string, outcome: Option<nat>)
    requires s.writer.None? && s.readers == {}
    ensures Solo(s, host, outcome, 3) ==
            With(s, host, if host in s.certs then Returned(Some(s.certs[host])) else Missed)
  {
    var i, found := |s.calls|, if host in s.certs then Some(s.certs[host]) else None;
    MoveLast(s, host, Start, Reading);
    var s1 := Solo(s, host, outcome, 1);
    assert Solo(s, host, outcome, 0) == With(s, host, Start);
    assert s1 == With(s, host, Reading).(readers := {i});
    MoveLast(s, host, Reading, Looked(found));
    assert Solo(s, host, outcome, 2) == With(s, host, Looked(found)).(readers := {i});
    MoveLast(s, host, Looked(found), if found.Some? then Returned(found) else Missed);
    assert {i} - {i} == s.readers;
  }

  lemma SoloLocks(s: State, host: string, outcome: Option<nat>)
    requires s.writer.None? && s.readers == {} && host !in s.certs
    ensures Solo(s, host, outcome, 5) == With(s, host, Generating).(writer := Some(|s.calls|))
  {
    var i := |s.calls|;
    SoloLooks(s, host, outcome);
    MoveLast(s, host, Missed, Writing);
    assert Solo(s, host, outcome, 4) == With(s, host, Writing).(writer := Some(i));
    MoveLast(s, host, Writing, Generating);
  }

  lemma SoloWrites(s: State, host: string, outcome: Option<nat>)
    requires s.writer.None? && s.readers == {} && host !in s.certs
    ensures var (certs, result) := Fetched(s.certs, host, outcome);
            var done := Solo(s, host, outcome, if outcome.Some? then 8 else 7);
            && done.certs == certs && done.calls == s.calls + [Call(host, Returned(result))]
            && done.writer == s.writer && done.readers == s.readers
  {
    var i := |s.calls|;
    SoloLocks(s, host, outcome);
    if outcome.None? {
      MoveLast(s, host, Generating, Leaving(None));
      assert Solo(s, host, outcome, 6) == With(s, host, Leaving(None)).(writer := Some(i));
      MoveLast(s, host, Leaving(None), Returned(None));
    } else {
      var cert := Cert(host, outcome.value);
      var t := s.(generated := s.generated + [cert]);
      MoveLast(t, host, Generating, Storing(cert));
      assert Solo(s, host, outcome, 6) == With(t, host, Storing(cert)).(writer := Some(i));
      MoveLast(t, host, Storing(cert), Leaving(Some(cert)));
      assert Solo(s, host, outcome, 7) ==
             With(t, host, Leaving(Some(cert))).(writer := Some(i), certs := s.certs[host := cert]);
      MoveLast(t, host, Leaving(Some(cert)), Returned(Some(cert)));
    }
  }

  /** Undisturbed, a call of the step system does what the cache object does; in particular a call
      after a failed one generates afresh. */
  lemma SoloIsFetched(s: State, host: string, outcome: Option<nat>)
    requires s.writer.None? && s.readers == {}
    ensures var (certs, result) := Fetched(s.certs, host, outcome);
            var r := Solo(s, host, outcome, 8);
            r.certs == certs && r.calls == s.calls + [Call(host, Returned(result))] && r.writer.None? && r.readers == {}
  {
    SoloLooks(s, host, outcome);
    if host in s.certs {
      SoloDone(s, host, outcome, 3, 8);
    } else {
      SoloWrites(s, host, outcome);
      if outcome.None? {
        SoloDone(s, host, outcome, 7, 8);
      }
    }
  }

  lemma {:induction false} SoloDone(s: State, host: string, outcome: Option<nat>, k: nat, n: nat)
    requires k <= n && |s.calls| < |Solo(s, host, outcome, k).calls|
    requires Solo(s, host, outcome, k).calls[|s.calls|].pc.Returned?
    ensures Solo(s, host, outcome, n) == Solo(s, host, outcome, k)
  {
    if k == n {
    } else {
      SoloDone(s, host, outcome, k, n - 1);
    }
  }

  /** The locking cannot deadlock: while a call is unfinished, some call can move. */
  lemma NoDeadlock(steps: seq<Step>, n: nat, i: nat) returns (j: nat)
    requires n <= |steps| && i < |At(steps, n).calls| && !At(steps, n).calls[i].pc.Returned?
    ensures j < |At(steps, n).calls| && !At(steps, n).calls[j].pc.Returned?
    ensures Next(At(steps, n), Advance(j, None)) != At(steps, n)
  {
    InvAlways(steps, n);
    var s := At(steps, n);
    j := if s.writer.Some? then s.writer.value else if k :| k in s.readers then k else i;
    assert Next(s, Advance(j, None)).calls[j] != s.calls[j];
  }
}
