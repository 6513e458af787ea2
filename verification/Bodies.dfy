/** Bounded body capture: read a prefix of a body, splice it back in front of the rest,
    fix the announced length, and store or drop what was read
    (internal/proxy/proxy_body.go, internal/proxy/proxy.go, internal/capture/capture.go). */
module Bodies {
  import opened Basics

  // ---- Readers ------------------------------------------------------------

  /** What one Read of the source makes available, and whether the call that delivers
      its last byte also reports a failure. */
  datatype Chunk = Chunk(data: bytes, fails: bool)

  /** Everything a body will deliver, and whether it ends by failing for good instead of at EOF. */
  datatype Body = Body(chunks: seq<Chunk>, broken: bool) {
    function Tail(): (r: Body)
      requires chunks != []
    {
      Body(chunks[1..], broken)
    }
  }

  function Concat(chunks: seq<Chunk>): (b: bytes) {
    if chunks == [] then [] else chunks[0].data + Concat(chunks[1..])
  }

  /** All data bytes still to come, in order. */
  function AllBytes(b: Body): (r: bytes) {
    Concat(b.chunks)
  }

  function Readable(b: Option<Body>): (r: bytes) {
    if b.Some? then AllBytes(b.value) else []
  }

  datatype ReadResult = ReadResult(data: bytes, rest: Body, failed: bool)

  /** io.ReadAll. */
  function ReadAll(b: Body): (r: ReadResult)
    decreases |b.chunks|
  {
    if b.chunks == [] then ReadResult([], b, b.broken)
    else if b.chunks[0].fails then ReadResult(b.chunks[0].data, b.Tail(), true)
    else
      var r := ReadAll(b.Tail());
      r.(data := b.chunks[0].data + r.data)
  }

  /** io.ReadAll of an io.LimitReader: stops without touching the source once n bytes are read,
      and reads nothing at all for n <= 0. */
  function ReadLimited(b: Body, n: int): (r: ReadResult)
    decreases |b.chunks|
  {
    if n <= 0 then ReadResult([], b, false)
    else if b.chunks == [] then ReadResult([], b, b.broken)
    else
      var c := b.chunks[0];
      if |c.data| > n then ReadResult(c.data[..n], b.(chunks := [c.(data := c.data[n..])] + b.chunks[1..]), false)
      else if c.fails then ReadResult(c.data, b.Tail(), true)
      else
        var r := ReadLimited(b.Tail(), n - |c.data|);
        r.(data := c.data + r.data)
  }

  /** io.MultiReader of a byte prefix and what remains of the source. */
  function Splice(prefix: bytes, rest: Body): (b: Body)
    ensures AllBytes(b) == prefix + AllBytes(rest) && b.broken == rest.broken
  {
    assert ([Chunk(prefix, false)] + rest.chunks)[1..] == rest.chunks;
    Body([Chunk(prefix, false)] + rest.chunks, rest.broken)
  }

  /** The data offset of the first failure, and whether it arrives with a data byte. */
  function FirstFault(b: Body): (r: Option<(nat, bool)>)
    ensures r.Some? && r.value.1 ==> r.value.0 > 0
    decreases |b.chunks|
  {
    if b.chunks == [] then if b.broken then Some((0, false)) else None
    else
      var c := b.chunks[0];
      if c.fails then Some((|c.data|, c.data != []))
      else
        match FirstFault(b.Tail())
        case None => None
        case Some((k, withData)) => Some((|c.data| + k, withData))
  }

  /** A read of at most n bytes meets a failure. */
  predicate FaultWithin(b: Body, n: int) {
    match FirstFault(b)
    case None => false
    case Some((k, withData)) => k < n || (k == n && withData)
  }

  lemma {:induction false} ReadAllSplits(b: Body)
    ensures var r := ReadAll(b);
            && r.data + AllBytes(r.rest) == AllBytes(b) && r.rest.broken == b.broken
            && (!r.failed ==> r.rest.chunks == [])
            && (r.failed <==> FirstFault(b).Some?)
            && (r.failed ==> |r.data| == FirstFault(b).value.0)
    decreases |b.chunks|
  {
    if b.chunks != [] && !b.chunks[0].fails {
      ReadAllSplits(b.Tail());
    }
  }

  lemma NothingRead(b: Body)
    ensures [] + AllBytes(b) == AllBytes(b)
  {
  }

  lemma SplitChunk(b: Body, n: nat)
    requires b.chunks != [] && n < |b.chunks[0].data|
    ensures var c := b.chunks[0];
            c.data[..n] + AllBytes(b.(chunks := [c.(data := c.data[n..])] + b.chunks[1..])) == AllBytes(b)
  {
    var c := b.chunks[0];
    var left := [c.(data := c.data[n..])] + b.chunks[1..];
    assert left[1..] == b.chunks[1..];
    assert c.data[..n] + (c.data[n..] + Concat(b.chunks[1..])) == c.data + Concat(b.chunks[1..]);
  }

  lemma WholeHead(b: Body)
    requires b.chunks != []
    ensures b.chunks[0].data + AllBytes(b.Tail()) == AllBytes(b)
  {
  }

  /** What was read of the tail, with the head in front. */
  lemma HeadInFront(b: Body, r: ReadResult)
    requires b.chunks != [] && r.data + AllBytes(r.rest) == AllBytes(b.Tail())
    ensures (b.chunks[0].data + r.data) + AllBytes(r.rest) == AllBytes(b)
  {
  }

  lemma {:induction false} ReadLimitedSplits(b: Body, n: int)
    ensures var r := ReadLimited(b, n);
            && r.data + AllBytes(r.rest) == AllBytes(b) && r.rest.broken == b.broken
            && (!r.failed && |r.data| < n ==> r.rest.chunks == [])
            && |r.data| <= if n <= 0 then 0 else n
    decreases |b.chunks|
  {
    hide AllBytes;
    if n <= 0 || b.chunks == [] {
      NothingRead(b);
    } else {
      var c := b.chunks[0];
      if |c.data| > n {
        SplitChunk(b, n);
      } else if c.fails {
        WholeHead(b);
      } else {
        ReadLimitedSplits(b.Tail(), n - |c.data|);
        HeadInFront(b, ReadLimited(b.Tail(), n - |c.data|));
      }
    }
  }

  lemma {:induction false} ReadLimitedFails(b: Body, n: int)
    ensures ReadLimited(b, n).failed <==> FaultWithin(b, n)
    ensures FaultWithin(b, n) ==> |ReadLimited(b, n).data| == FirstFault(b).value.0
    decreases |b.chunks|
  {
    if n > 0 && b.chunks != [] && |b.chunks[0].data| <= n && !b.chunks[0].fails {
      ReadLimitedFails(b.Tail(), n - |b.chunks[0].data|);
    }
  }

  /** How many bytes of a body a read bounded by `bound` (None: unbounded) asks for. */
  function Wanted(b: Body, bound: Option<int>): (k: nat)
    ensures k <= |AllBytes(b)|
  {
    if bound.None? || bound.value > |AllBytes(b)| then |AllBytes(b)|
    else if bound.value < 0 then 0
    else bound.value
  }

  predicate BoundedReadFails(b: Body, bound: Option<int>) {
    if bound.None? then FirstFault(b).Some? else FaultWithin(b, bound.value)
  }

  function ReadUpTo(b: Body, bound: Option<int>): (r: ReadResult) {
    if bound.None? then ReadAll(b) else ReadLimited(b, bound.value)
  }

  /** A bounded read that succeeds returns exactly the bytes asked for; one that fails returns
      those before the failure. Either way the rest stays in the body. */
  lemma ReadUpToExact(b: Body, bound: Option<int>)
    ensures var r := ReadUpTo(b, bound);
            && r.data + AllBytes(r.rest) == AllBytes(b) && r.rest.broken == b.broken
            && (r.failed <==> BoundedReadFails(b, bound))
            && |r.data| == (if r.failed then FirstFault(b).value.0 else Wanted(b, bound)) <= |AllBytes(b)|
            && r.data == AllBytes(b)[..|r.data|] && AllBytes(r.rest) == AllBytes(b)[|r.data|..]
  {
    var r := ReadUpTo(b, bound);
    if bound.None? {
      ReadAllSplits(b);
    } else {
      ReadLimitedSplits(b, bound.value);
      ReadLimitedFails(b, bound.value);
    }
    assert r.data + AllBytes(r.rest) == AllBytes(b);
    if !r.failed && r.rest.chunks == [] {
      assert AllBytes(r.rest) == [];
    }
  }

  /** A first failure moved back by n bytes. */
  function Later(fault: Option<(nat, bool)>, n: nat): (r: Option<(nat, bool)>) {
    match fault
    case None => None
    case Some((k, withData)) => Some((n + k, withData))
  }

  lemma {:induction false} ReadAllKeepsFault(b: Body)
    requires !ReadAll(b).failed
    ensures FirstFault(b) == None == FirstFault(ReadAll(b).rest)
    decreases |b.chunks|
  {
    if b.chunks == [] {
    } else {
      ReadAllKeepsFault(b.Tail());
    }
  }

  lemma {:induction false} ReadLimitedKeepsFault(b: Body, n: int)
    requires !ReadLimited(b, n).failed
    ensures FirstFault(b) == Later(FirstFault(ReadLimited(b, n).rest), |ReadLimited(b, n).data|)
    decreases |b.chunks|
  {
    if n > 0 && b.chunks != [] {
      var c := b.chunks[0];
      if |c.data| > n {
        var rest := ReadLimited(b, n).rest;
        assert rest.Tail() == b.Tail();
      } else {
        ReadLimitedKeepsFault(b.Tail(), n - |c.data|);
      }
    }
  }

  /** The failure after the first one. A body that fails for good does so at every later read. */
  function SecondFault(b: Body): (r: Option<(nat, bool)>)
    decreases |b.chunks|
  {
    if b.chunks == [] then if b.broken then Some((0, false)) else None
    else Later(if b.chunks[0].fails then FirstFault(b.Tail()) else SecondFault(b.Tail()), |b.chunks[0].data|)
  }

  lemma {:induction false} ReadAllPassesFault(b: Body)
    requires ReadAll(b).failed
    ensures SecondFault(b) == Later(FirstFault(ReadAll(b).rest), |ReadAll(b).data|)
    decreases |b.chunks|
  {
    if b.chunks == [] || b.chunks[0].fails {
    } else {
      ReadAllPassesFault(b.Tail());
    }
  }

  lemma {:induction false} ReadLimitedPassesFault(b: Body, n: int)
    requires ReadLimited(b, n).failed
    ensures SecondFault(b) == Later(FirstFault(ReadLimited(b, n).rest), |ReadLimited(b, n).data|)
    decreases |b.chunks|
  {
    if b.chunks == [] || b.chunks[0].fails {
    } else {
      ReadLimitedPassesFault(b.Tail(), n - |b.chunks[0].data|);
    }
  }

  /** Every failure a body reports before its end: its data offset, and whether it comes with a data byte. */
  function Faults(b: Body): (r: seq<(nat, bool)>)
    decreases |b.chunks|
  {
    if b.chunks == [] then []
    else
      var c := b.chunks[0];
      (if c.fails then [(|c.data|, c.data != [])] else []) + AllLater(Faults(b.Tail()), |c.data|)
  }

  /** Failures moved back by n bytes. */
  function AllLater(faults: seq<(nat, bool)>, n: nat): (r: seq<(nat, bool)>)
    ensures |r| == |faults|
  {
    seq(|faults|, i requires 0 <= i < |faults| => (n + faults[i].0, faults[i].1))
  }

  lemma AllLaterTwice(faults: seq<(nat, bool)>, m: nat, n: nat)
    ensures AllLater(AllLater(faults, m), n) == AllLater(faults, n + m)
    ensures AllLater(faults, 0) == faults
  {
  }

  /** The first failure is the first of these; a body that fails for good also does so at its end. */
  lemma {:induction false} FirstOfFaults(b: Body)
    ensures FirstFault(b) ==
            if Faults(b) != [] then Some(Faults(b)[0])
            else if b.broken then Some((|AllBytes(b)|, false)) else None
    decreases |b.chunks|
  {
    if b.chunks == [] {
    } else {
      FirstOfFaults(b.Tail());
    }
  }

  /** The failures still ahead after a read that failed or did not. */
  function FaultsAhead(b: Body, failed: bool): (r: seq<(nat, bool)>) {
    if failed && Faults(b) != [] then Faults(b)[1..] else Faults(b)
  }

  lemma FaultsOfHead(b: Body)
    requires b.chunks != []
    ensures b.chunks[0].fails ==>
              FaultsAhead(b, true) == AllLater(Faults(b.Tail()), |b.chunks[0].data|)
    ensures !b.chunks[0].fails ==> Faults(b) == AllLater(Faults(b.Tail()), |b.chunks[0].data|)
  {
    var later := AllLater(Faults(b.Tail()), |b.chunks[0].data|);
    assert [] + later == later;
  }

  /** Moving the failures of the tail on moves those of the body on. */
  lemma FaultsBehindHead(b: Body, ahead: seq<(nat, bool)>, n: nat, failed: bool)
    requires b.chunks != [] && !b.chunks[0].fails && AllLater(ahead, n) == FaultsAhead(b.Tail(), failed)
    ensures AllLater(ahead, |b.chunks[0].data| + n) == FaultsAhead(b, failed)
  {
    FaultsOfHead(b);
    AllLaterTwice(ahead, n, |b.chunks[0].data|);
    AllLaterRest(Faults(b.Tail()), |b.chunks[0].data|);
  }

  lemma AllLaterRest(faults: seq<(nat, bool)>, n: nat)
    ensures faults != [] ==> AllLater(faults[1..], n) == AllLater(faults, n)[1..]
  {
  }

  lemma {:induction false} ReadAllKeepsFaults(b: Body)
    ensures var r := ReadAll(b); AllLater(Faults(r.rest), |r.data|) == FaultsAhead(b, r.failed)
    decreases |b.chunks|
  {
    hide AllLater, FaultsAhead;
    if b.chunks == [] {
      NoFaults(b);
    } else if b.chunks[0].fails {
      FaultsOfHead(b);
    } else {
      var r := ReadAll(b.Tail());
      ReadAllKeepsFaults(b.Tail());
      FaultsBehindHead(b, Faults(r.rest), |r.data|, r.failed);
    }
  }

  lemma NoFaults(b: Body)
    requires b.chunks == []
    ensures forall failed :: AllLater(Faults(b), 0) == FaultsAhead(b, failed)
  {
  }

  lemma {:induction false} ReadLimitedKeepsFaults(b: Body, n: int)
    ensures var r := ReadLimited(b, n); AllLater(Faults(r.rest), |r.data|) == FaultsAhead(b, r.failed)
    decreases |b.chunks|
  {
    hide AllLater, FaultsAhead, Faults;
    if n <= 0 {
      AllFaultsAhead(b);
    } else if b.chunks == [] {
      NoFaults(b);
    } else {
      var c := b.chunks[0];
      if |c.data| > n {
        SplitKeepsFaults(b, n);
      } else if c.fails {
        FaultsOfHead(b);
      } else {
        var r := ReadLimited(b.Tail(), n - |c.data|);
        ReadLimitedKeepsFaults(b.Tail(), n - |c.data|);
        FaultsBehindHead(b, Faults(r.rest), |r.data|, r.failed);
      }
    }
  }

  lemma AllFaultsAhead(b: Body)
    ensures AllLater(Faults(b), 0) == FaultsAhead(b, false)
  {
    AllLaterTwice(Faults(b), 0, 0);
  }

  /** A read that ends inside the first chunk. */
  lemma SplitKeepsFaults(b: Body, n: nat)
    requires b.chunks != [] && n < |b.chunks[0].data|
    ensures var c := b.chunks[0];
            AllLater(Faults(b.(chunks := [c.(data := c.data[n..])] + b.chunks[1..])), n) == FaultsAhead(b, false)
  {
    hide AllLater;
    var c := b.chunks[0];
    var rest := b.(chunks := [c.(data := c.data[n..])] + b.chunks[1..]);
    var tail := Faults(b.Tail());
    assert rest.Tail() == b.Tail();
    AllLaterTwice(tail, |c.data| - n, n);
    if c.fails {
      AllLaterCons((|c.data| - n, true), AllLater(tail, |c.data| - n), n);
    } else {
      assert Faults(rest) == AllLater(tail, |c.data| - n);
    }
  }

  lemma AllLaterCons(first: (nat, bool), rest: seq<(nat, bool)>, n: nat)
    ensures AllLater([first] + rest, n) == [(n + first.0, first.1)] + AllLater(rest, n)
  {
  }

  /** A bounded read takes no failure out of the body but the one it reports. */
  lemma ReadUpToKeepsFaults(b: Body, bound: Option<int>)
    ensures var r := ReadUpTo(b, bound); AllLater(Faults(r.rest), |r.data|) == FaultsAhead(b, r.failed)
  {
    if bound.None? {
      ReadAllKeepsFaults(b);
    } else {
      ReadLimitedKeepsFaults(b, bound.value);
    }
  }

  lemma SpliceFaults(prefix: bytes, rest: Body)
    ensures Faults(Splice(prefix, rest)) == AllLater(Faults(rest), |prefix|)
  {
    assert Splice(prefix, rest).Tail() == rest;
  }

  lemma SpliceFault(prefix: bytes, rest: Body)
    ensures FirstFault(Splice(prefix, rest)) == Later(FirstFault(rest), |prefix|)
  {
    assert Splice(prefix, rest).Tail() == rest;
  }

  /** The spliced body fails where the original would have; if the read itself met the first
      failure, where the original fails next. */
  lemma SpliceKeepsFault(b: Body, bound: Option<int>)
    ensures var r := ReadUpTo(b, bound);
            FirstFault(Splice(r.data, r.rest)) == if r.failed then SecondFault(b) else FirstFault(b)
  {
    var r := ReadUpTo(b, bound);
    SpliceFault(r.data, r.rest);
    if bound.None? {
      if r.failed {
        ReadAllPassesFault(b);
      } else {
        ReadAllKeepsFault(b);
      }
    } else if r.failed {
      ReadLimitedPassesFault(b, bound.value);
    } else {
      ReadLimitedKeepsFault(b, bound.value);
    }
  }

  // ---- Responses ----------------------------------------------------------

  /** The parts of a response that capture reads or changes; `streamType` says whether its
      content type is one meant to be consumed over time. */
  datatype Response = Response(body: Option<Body>, contentLength: int, streamType: bool)

  predicate IsStreamingResponse(resp: Response) {
    resp.contentLength < 0 && resp.streamType
  }

  predicate CanReadBody(resp: Response) {
    resp.body.Some? && !IsStreamingResponse(resp)
  }

  /** limit+1 in 64-bit arithmetic: at the largest limit it wraps around. */
  lemma OneMore(limit: int64)
    requires limit > 0
    ensures Wrap64(limit + 1) == if limit == MAX_INT64 then -MAX_INT64 - 1 else limit + 1
  {
  }

  /** The number of bytes a response read is bounded by, if it is bounded. */
  function ResponseBound(contentLength: int, limit: int64, safetyCap: int64): (r: Option<int>) {
    if limit > 0 then Some(if limit == MAX_INT64 then -MAX_INT64 - 1 else limit + 1)
    else if contentLength >= 0 then None
    else Some(safetyCap)
  }

  function ReadForCapture(body: Body, contentLength: int, limit: int64, safetyCap: int64): (r: ReadResult) {
    if limit > 0 then ReadLimited(body, Wrap64(limit + 1))
    else if contentLength >= 0 then ReadAll(body)
    else ReadLimited(body, safetyCap)
  }

  predicate CaptureExceededLimit(contentLength: int, read: int, limit: int64, safetyCap: int64) {
    if limit > 0 then read == Wrap64(limit + 1) else contentLength < 0 && read == safetyCap
  }

  /** Body, truncated, skipped, failed: what readBodyBounded returns, and the response it leaves. */
  datatype Capture = Capture(resp: Response, data: bytes, truncated: bool, skipped: bool, failed: bool)

  function ReadBodyBounded(resp: Response, limit: int64, safetyCap: int64): (c: Capture) {
    if !CanReadBody(resp) then Capture(resp, [], false, resp.body.Some?, false)
    else
      var r := ReadForCapture(resp.body.value, resp.contentLength, limit, safetyCap);
      var resp' := resp.(body := Some(Splice(r.data, r.rest)));
      if r.failed then Capture(resp', [], false, false, true)
      else Capture(resp', r.data, CaptureExceededLimit(resp.contentLength, |r.data|, limit, safetyCap), false, false)
  }

  predicate OverLimit(limit: int64, n: int) {
    limit > 0 && n > limit
  }

  /** The body an entry keeps of the bytes read, `worth` standing for the printable-or-JSON test. */
  function StoredResponseBody(data: bytes, limit: int64, worth: bytes -> bool): (r: Option<bytes>) {
    if data == [] || !worth(data) || OverLimit(limit, |data|) then None else Some(data)
  }

  /** The response passed on, and the body of the entry pushed to the store, if one is pushed. */
  datatype Recorded = Recorded(resp: Response, pushed: bool, stored: Option<bytes>)

  function RecordResponse(resp: Response, limit: int64, safetyCap: int64, worth: bytes -> bool): (r: Recorded) {
    var c := ReadBodyBounded(resp, limit, safetyCap);
    if c.failed then Recorded(c.resp, false, None)
    else if c.skipped then Recorded(c.resp, true, StoredResponseBody([], limit, worth))
    else Recorded(c.resp.(contentLength := if c.truncated then -1 else |c.data|), true,
                  StoredResponseBody(c.data, limit, worth))
  }

  lemma ReadForCaptureBound(body: Body, contentLength: int, limit: int64, safetyCap: int64)
    ensures ReadForCapture(body, contentLength, limit, safetyCap) ==
            ReadUpTo(body, ResponseBound(contentLength, limit, safetyCap))
    ensures var read := |ReadForCapture(body, contentLength, limit, safetyCap).data|;
            CaptureExceededLimit(contentLength, read, limit, safetyCap) <==>
            ResponseBound(contentLength, limit, safetyCap) == Some(read)
  {
    if limit > 0 {
      OneMore(limit);
    }
  }

  /** The client still sees every byte, in order, for every reader and every limit: after a complete
      read, a truncated one, a failed one, and when the body is skipped; and a body that would
      have ended in failure still does. */
  lemma ResponseTransparent(resp: Response, limit: int64, safetyCap: int64, worth: bytes -> bool)
    ensures var after := RecordResponse(resp, limit, safetyCap, worth).resp;
            && after.body.Some? == resp.body.Some?
            && Readable(after.body) == Readable(resp.body)
            && (resp.body.Some? ==> after.body.value.broken == resp.body.value.broken)
            && after.streamType == resp.streamType
            && (IsStreamingResponse(resp) && resp.body.Some? ==> after == resp)
  {
    if CanReadBody(resp) {
      ReadForCaptureBound(resp.body.value, resp.contentLength, limit, safetyCap);
      ReadUpToExact(resp.body.value, ResponseBound(resp.contentLength, limit, safetyCap));
    }
  }

  /** When recording gives up because the body could not be read. */
  predicate ReadFails(resp: Response, limit: int64, safetyCap: int64) {
    CanReadBody(resp) && BoundedReadFails(resp.body.value, ResponseBound(resp.contentLength, limit, safetyCap))
  }

  /** An entry is pushed exactly when no failure lies within the bytes capture reads. */
  lemma PushedUnlessReadFails(resp: Response, limit: int64, safetyCap: int64, worth: bytes -> bool)
    ensures RecordResponse(resp, limit, safetyCap, worth).pushed <==> !ReadFails(resp, limit, safetyCap)
  {
    if CanReadBody(resp) {
      ReadForCaptureBound(resp.body.value, resp.contentLength, limit, safetyCap);
      ReadUpToExact(resp.body.value, ResponseBound(resp.contentLength, limit, safetyCap));
    }
  }

  /** The client meets the first failure of the body at the same byte as without the proxy, unless
      the capture read met it: then that failure is swallowed and the client meets the next one. */
  lemma ResponseFailsAlike(resp: Response, limit: int64, safetyCap: int64, worth: bytes -> bool)
    requires resp.body.Some?
    ensures var after := RecordResponse(resp, limit, safetyCap, worth).resp.body;
            var failed := ReadFails(resp, limit, safetyCap);
            && after.Some?
            && FirstFault(after.value) == (if failed then SecondFault(resp.body.value) else FirstFault(resp.body.value))
            && Faults(after.value) == FaultsAhead(resp.body.value, failed)
  {
    hide FirstFault, SecondFault, Faults, ReadForCapture, ReadUpTo, CaptureExceededLimit;
    if CanReadBody(resp) {
      var bound := ResponseBound(resp.contentLength, limit, safetyCap);
      var r := ReadUpTo(resp.body.value, bound);
      ReadForCaptureBound(resp.body.value, resp.contentLength, limit, safetyCap);
      ReadUpToExact(resp.body.value, bound);
      SpliceKeepsFault(resp.body.value, bound);
      ReadUpToKeepsFaults(resp.body.value, bound);
      SpliceFaults(r.data, r.rest);
    }
  }

  /** The announced length is unknown or right. */
  predicate LengthHonest(resp: Response) {
    resp.contentLength == -1 || resp.contentLength == |Readable(resp.body)|
  }

  /** The capture read sees the end of the body or reports that it did not. */
  predicate BoundUsable(resp: Response, limit: int64, safetyCap: int64) {
    limit < MAX_INT64 && (limit > 0 || resp.contentLength >= 0 || safetyCap >= 0)
  }

  /** After recording, the length is honest for every limit below the largest integer; at that
      limit the bound wraps around and any body is announced as empty. */
  lemma ContentLengthHonest(resp: Response, limit: int64, safetyCap: int64, worth: bytes -> bool)
    requires !IsStreamingResponse(resp) && !ReadFails(resp, limit, safetyCap)
    ensures LengthHonest(RecordResponse(resp, limit, safetyCap, worth).resp) <==>
            BoundUsable(resp, limit, safetyCap) || Readable(resp.body) == []
  {
    ResponseTransparent(resp, limit, safetyCap, worth);
    if resp.body.Some? {
      ReadForCaptureBound(resp.body.value, resp.contentLength, limit, safetyCap);
      ReadUpToExact(resp.body.value, ResponseBound(resp.contentLength, limit, safetyCap));
    }
  }

  /** The body is longer than a usable limit, or at least as long as the cap put on bodies of unknown length. */
  predicate LongerThanRead(resp: Response, limit: int64, safetyCap: int64) {
    && resp.body.Some?
    && (0 < limit < |Readable(resp.body)|
        || (limit <= 0 && resp.contentLength < 0 && safetyCap <= |Readable(resp.body)|))
  }

  /** The length announced after recording: unchanged if the body was skipped or could not be read, else
      unknown if the body is longer than what was read, else its exact length. A bound that cannot be used
      announces nothing but emptiness. */
  function AnnouncedLength(resp: Response, limit: int64, safetyCap: int64): (n: int) {
    if resp.body.Some? && ((resp.contentLength < 0 && resp.streamType) || ReadFails(resp, limit, safetyCap))
    then resp.contentLength
    else if resp.body.Some? && !BoundUsable(resp, limit, safetyCap) then 0
    else if LongerThanRead(resp, limit, safetyCap) then -1
    else |Readable(resp.body)|
  }

  /** Recording announces that length for every response, limit and cap; so a body that was read completely
      keeps its length, and a response without a body has length 0. */
  lemma LengthExactly(resp: Response, limit: int64, safetyCap: int64, worth: bytes -> bool)
    ensures RecordResponse(resp, limit, safetyCap, worth).resp.contentLength == AnnouncedLength(resp, limit, safetyCap)
  {
    hide ReadForCapture, ReadUpTo, CaptureExceededLimit, Splice;
    if CanReadBody(resp) {
      ReadForCaptureBound(resp.body.value, resp.contentLength, limit, safetyCap);
      ReadUpToExact(resp.body.value, ResponseBound(resp.contentLength, limit, safetyCap));
    }
  }

  /** What reaches the client of a recorded response: all bytes, the failures still ahead, the length above. */
  ghost predicate ResponsePassedOn(resp: Response, after: Response, limit: int64, safetyCap: int64) {
    && after.streamType == resp.streamType && after.contentLength == AnnouncedLength(resp, limit, safetyCap)
    && after.body.Some? == resp.body.Some?
    && Readable(after.body) == Readable(resp.body)
    && (resp.body.Some? ==>
          && after.body.value.broken == resp.body.value.broken
          && Faults(after.body.value) == FaultsAhead(resp.body.value, ReadFails(resp, limit, safetyCap)))
  }

  lemma RecordPassesOn(resp: Response, limit: int64, safetyCap: int64, worth: bytes -> bool)
    ensures ResponsePassedOn(resp, RecordResponse(resp, limit, safetyCap, worth).resp, limit, safetyCap)
  {
    hide RecordResponse, AnnouncedLength, Faults, ReadFails;
    ResponseTransparent(resp, limit, safetyCap, worth);
    LengthExactly(resp, limit, safetyCap, worth);
    if resp.body.Some? {
      ResponseFailsAlike(resp, limit, safetyCap, worth);
    }
  }

  /** Capture stops at the safety cap: no limit, unknown length, more bytes than the cap. */
  predicate CutAtSafetyCap(resp: Response, limit: int64, safetyCap: int64) {
    && limit <= 0 && resp.contentLength < 0 && CanReadBody(resp)
    && 0 < safetyCap < |AllBytes(resp.body.value)| && !FaultWithin(resp.body.value, safetyCap)
  }

  /** All or nothing: a stored response body is the complete body, except that without a limit a
      body of unknown length is stored cut off at the safety cap. */
  lemma StoredResponseComplete(resp: Response, limit: int64, safetyCap: int64, worth: bytes -> bool)
    ensures var stored := RecordResponse(resp, limit, safetyCap, worth).stored;
            && (stored.Some? ==> stored.value <= Readable(resp.body))
            && (stored.Some? && stored.value != Readable(resp.body) <==>
                CutAtSafetyCap(resp, limit, safetyCap) && worth(AllBytes(resp.body.value)[..safetyCap]))
  {
    if CanReadBody(resp) {
      ReadForCaptureBound(resp.body.value, resp.contentLength, limit, safetyCap);
      ReadUpToExact(resp.body.value, ResponseBound(resp.contentLength, limit, safetyCap));
    }
  }

  /** When a response body is stored at all: it may be read (it is not an event stream of unknown
      length), nothing fails, it is within the limit, and what was read is not empty and worth it. */
  lemma StoredResponseWhen(resp: Response, limit: int64, safetyCap: int64, worth: bytes -> bool)
    ensures RecordResponse(resp, limit, safetyCap, worth).stored.Some? <==>
            && resp.body.Some? && (resp.contentLength >= 0 || !resp.streamType)
            && !ReadFails(resp, limit, safetyCap)
            && (limit <= 0 || |Readable(resp.body)| <= limit < MAX_INT64)
            && var read := Wanted(resp.body.value, ResponseBound(resp.contentLength, limit, safetyCap));
               read > 0 && worth(Readable(resp.body)[..read])
  {
    if CanReadBody(resp) {
      ReadForCaptureBound(resp.body.value, resp.contentLength, limit, safetyCap);
      ReadUpToExact(resp.body.value, ResponseBound(resp.contentLength, limit, safetyCap));
    }
  }

  /** The response as the handlers share it. */
  class HttpResponse {
    var body: Option<Body>
    var contentLength: int
    const streamType: bool

    constructor (resp: Response)
      ensures Val() == resp
    {
      body, contentLength, streamType := resp.body, resp.contentLength, resp.streamType;
    }

    function Val(): (r: Response)
      reads this
    {
      Response(body, contentLength, streamType)
    }

    /** Reads for capture and, even on failure, puts the bytes read back in front. */
    method ReadAndRewire(limit: int64, safetyCap: int64) returns (buffered: bytes, failed: bool)
      requires CanReadBody(Val())
      modifies this`body
      ensures var r := ReadForCapture(old(body.value), contentLength, limit, safetyCap);
              body == Some(Splice(r.data, r.rest)) && failed == r.failed && buffered == if failed then [] else r.data
    {
      var r := ReadForCapture(body.value, contentLength, limit, safetyCap);
      body := Some(Splice(r.data, r.rest));
      if r.failed {
        return [], true;
      }
      return r.data, false;
    }

    method ReadBounded(limit: int64, safetyCap: int64)
      returns (data: bytes, truncated: bool, skipped: bool, failed: bool)
      modifies this`body
      ensures Capture(Val(), data, truncated, skipped, failed) == ReadBodyBounded(old(Val()), limit, safetyCap)
    {
      if !CanReadBody(Val()) {
        return [], false, body.Some?, false;
      }
      var buffered;
      buffered, failed := ReadAndRewire(limit, safetyCap);
      if failed {
        return [], false, false, true;
      }
      return buffered, CaptureExceededLimit(contentLength, |buffered|, limit, safetyCap), false, false;
    }

    method FixContentLength(data: bytes, truncated: bool)
      modifies this`contentLength
      ensures contentLength == if truncated then -1 else |data|
    {
      if truncated {
        contentLength := -1;
        return;
      }
      contentLength := |data|;
    }

    /** Records the response; the entry for the store is returned instead of pushed. */
    method Record(limit: int64, safetyCap: int64, worth: bytes -> bool) returns (pushed: bool, stored: Option<bytes>)
      modifies this
      ensures Recorded(Val(), pushed, stored) == RecordResponse(old(Val()), limit, safetyCap, worth)
    {
      var data, truncated, skipped, failed := ReadBounded(limit, safetyCap);
      if failed {
        return false, None;
      }
      if skipped {
        return true, StoredResponseBody([], limit, worth);
      }
      FixContentLength(data, truncated);
      return true, StoredResponseBody(data, limit, worth);
    }
  }

  // ---- Requests -----------------------------------------------------------

  function ReadBounded(body: Body, limit: int64): (r: ReadResult) {
    if limit <= 0 then ReadAll(body) else ReadLimited(body, Wrap64(limit + 1))
  }

  /** The number of bytes a request read is bounded by, if it is bounded. */
  function RequestBound(limit: int64): (r: Option<int>) {
    if limit <= 0 then None else Some(if limit == MAX_INT64 then -MAX_INT64 - 1 else limit + 1)
  }

  lemma ReadBoundedBound(body: Body, limit: int64)
    ensures ReadBounded(body, limit) == ReadUpTo(body, RequestBound(limit))
  {
    if limit > 0 {
      OneMore(limit);
    }
  }

  /** The capture read of a request meets a failure. */
  predicate RequestReadFails(body: Body, limit: int64) {
    BoundedReadFails(body, RequestBound(limit))
  }

  /** A request as captured: the body passed on and the body stored. */
  datatype CapturedRequest = CapturedRequest(body: Option<Body>, stored: Option<bytes>)

  function CaptureRequest(body: Option<Body>, limit: int64): (r: CapturedRequest) {
    if body.None? then CapturedRequest(body, None)
    else
      var r := ReadBounded(body.value, limit);
      if r.failed then CapturedRequest(Some(r.rest), None)
      else CapturedRequest(Some(Splice(r.data, r.rest)), if OverLimit(limit, |r.data|) then None else Some(r.data))
  }

  /** The upstream server sees every byte of the request unless the capture read fails after
      consuming some: those bytes are not put back. */
  lemma RequestTransparent(body: Option<Body>, limit: int64)
    ensures Readable(CaptureRequest(body, limit).body) == Readable(body) <==>
            !(body.Some? && RequestReadFails(body.value, limit) && FirstFault(body.value).value.0 > 0)
    ensures body.Some? && RequestReadFails(body.value, limit) ==>
              var lost := FirstFault(body.value).value.0;
              lost <= |Readable(body)| && Readable(CaptureRequest(body, limit).body) == Readable(body)[lost..]
  {
    if body.Some? {
      ReadBoundedBound(body.value, limit);
      ReadUpToExact(body.value, RequestBound(limit));
    }
  }

  /** The bytes a request loses: those before the failure its capture read met. */
  function LostBytes(body: Body, limit: int64): (n: nat) {
    if RequestReadFails(body, limit) then FirstFault(body).value.0 else 0
  }

  /** The upstream server meets the failures of the body as it would have, counted from the lost bytes,
      except the one the capture read met; and a body that ends by failing still does. */
  lemma RequestFailsAlike(body: Body, limit: int64)
    ensures var after, failed := CaptureRequest(Some(body), limit).body, RequestReadFails(body, limit);
            && after.Some? && after.value.broken == body.broken
            && AllLater(Faults(after.value), LostBytes(body, limit)) == FaultsAhead(body, failed)
            && Later(FirstFault(after.value), LostBytes(body, limit)) ==
               (if failed then SecondFault(body) else FirstFault(body))
  {
    hide FirstFault, SecondFault, Faults, ReadUpTo, ReadBounded, Splice;
    var bound := RequestBound(limit);
    var r := ReadUpTo(body, bound);
    ReadBoundedBound(body, limit);
    ReadUpToExact(body, bound);
    ReadUpToKeepsFaults(body, bound);
    SpliceKeepsFault(body, bound);
    SpliceFaults(r.data, r.rest);
    SpliceFault(r.data, r.rest);
    AllLaterTwice(FaultsAhead(body, false), 0, 0);
  }

  /** What reaches the server of a captured request: all bytes but the lost ones, and the failures ahead. */
  ghost predicate RequestPassedOn(body: Option<Body>, after: Option<Body>, limit: int64) {
    && after.Some? == body.Some?
    && (body.Some? ==>
          && LostBytes(body.value, limit) <= |Readable(body)|
          && Readable(after) == Readable(body)[LostBytes(body.value, limit)..]
          && after.value.broken == body.value.broken
          && AllLater(Faults(after.value), LostBytes(body.value, limit)) ==
             FaultsAhead(body.value, RequestReadFails(body.value, limit)))
  }

  lemma CapturePassesOn(body: Option<Body>, limit: int64)
    ensures RequestPassedOn(body, CaptureRequest(body, limit).body, limit)
  {
    hide FirstFault, Faults, RequestReadFails;
    RequestTransparent(body, limit);
    if body.Some? {
      RequestFailsAlike(body.value, limit);
    }
  }

  /** Bytes really are lost that way: a two-byte body whose read reports a failure. */
  lemma RequestCanLoseBytes()
    ensures Readable(CaptureRequest(Some(Body([Chunk([1, 2], true), Chunk([3], false)], false)), 0).body) == [3]
  {
    var body := Body([Chunk([1, 2], true), Chunk([3], false)], false);
    assert body.Tail().chunks == [Chunk([3], false)];
    assert Concat(body.Tail().chunks) == [3] + Concat([]);
  }

  /** A stored request body is complete for every limit except the largest integer, where
      the empty string is stored for any body. */
  lemma StoredRequestComplete(body: Option<Body>, limit: int64)
    ensures var stored := CaptureRequest(body, limit).stored;
            stored.Some? && stored.value != Readable(body) <==>
            body.Some? && limit == MAX_INT64 && Readable(body) != []
    ensures limit == MAX_INT64 && body.Some? ==> CaptureRequest(body, limit).stored == Some([])
  {
    if body.Some? {
      ReadBoundedBound(body.value, limit);
      ReadUpToExact(body.value, RequestBound(limit));
    }
  }

  /** When a request body is stored at all. */
  lemma StoredRequestWhen(body: Option<Body>, limit: int64)
    ensures CaptureRequest(body, limit).stored.Some? <==>
            && body.Some? && !RequestReadFails(body.value, limit)
            && (limit <= 0 || limit == MAX_INT64 || |Readable(body)| <= limit)
  {
    if body.Some? {
      ReadBoundedBound(body.value, limit);
      ReadUpToExact(body.value, RequestBound(limit));
    }
  }

  /** The request as the handlers share it. */
  class HttpRequest {
    var body: Option<Body>

    constructor (body: Option<Body>)
      ensures this.body == body
    {
      this.body := body;
    }

    method Capture(limit: int64) returns (stored: Option<bytes>)
      modifies this
      ensures CapturedRequest(body, stored) == CaptureRequest(old(body), limit)
    {
      stored := None;
      if body.Some? {
        var r := ReadBounded(body.value, limit);
        body := Some(r.rest);
        if !r.failed {
          stored := Some(r.data);
          body := Some(Splice(r.data, r.rest));
        }
      }
      if stored.Some? && OverLimit(limit, |stored.value|) {
        stored := None;
      }
    }
  }
}
