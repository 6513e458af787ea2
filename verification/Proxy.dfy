/** Whole exchanges through the proxy: the capture filter, the captured request, the recorded
    response and the entry they make, over any sequence of exchanges
    (internal/proxy/proxy.go, internal/capture/capture.go). */
module Proxy {
  import opened Basics
  import opened Entries
  import opened Store
  import opened Bodies

  /** What a request says of itself; its headers as they are stored, credentials redacted. */
  datatype RequestHead = RequestHead(
    verb: string, url: string, scheme: string, host: string, path: string, headers: map<string, string>)

  /** What a response says of itself, and how long it took. */
  datatype ReplyHead = ReplyHead(
    statusCode: int, headers: map<string, string>, contentType: string, durationMs: int)

  /** One request and its response (None: there was none, and `reply` means nothing), with the id and
      timestamp its entry will get. */
  datatype Exchange = Exchange(
    head: RequestHead, request: Option<Body>, response: Option<Response>, reply: ReplyHead, id: EntryID, now: int)

  datatype Limits = Limits(request: int64, response: int64, safetyCap: int64)

  /** The optional include and exclude patterns, as tests on the full URL. */
  datatype Filters = Filters(includeRE: Option<string -> bool>, excludeRE: Option<string -> bool>)

  /** An exclude match always wins; otherwise only an include pattern that does not match excludes. */
  predicate ShouldCapture(f: Filters, url: string) {
    (f.includeRE.None? || f.includeRE.value(url)) && !(f.excludeRE.Some? && f.excludeRE.value(url))
  }

  /** The test whether a response body is worth storing, given its content type. */
  type Worth = (string, bytes) -> bool

  /** The test for the responses of one content type. */
  function WorthFor(worth: Worth, contentType: string): (r: bytes -> bool) {
    (body: bytes) => worth(contentType, body)
  }

  /** The entry of a captured request, before there is a response. */
  function RequestEntry(head: RequestHead, stored: Option<bytes>): (e: Entry) {
    Entry("", ZERO_TIME, 0, head.verb, head.url, head.scheme, head.host, head.path, head.headers, stored,
          0, map[], None, "")
  }

  /** What is captured of a response. */
  datatype CaptureResult = CaptureResult(
    statusCode: int, headers: map<string, string>, body: Option<bytes>, contentType: string, durationMs: int)

  function CaptureResponse(reply: ReplyHead, stored: Option<bytes>): (r: CaptureResult) {
    CaptureResult(reply.statusCode, reply.headers, stored, reply.contentType, reply.durationMs)
  }

  /** The entry of a whole exchange. */
  function CombineEntry(req: Entry, result: CaptureResult, id: EntryID, now: int): (e: Entry) {
    req.(statusCode := result.statusCode, responseHeaders := result.headers, responseBody := result.body,
         contentType := result.contentType, durationMs := result.durationMs, id := id, timestamp := now)
  }

  /** What is passed on, and the entry pushed to the store, if any. */
  datatype Handled = Handled(request: Option<Body>, response: Option<Response>, entry: Option<Entry>)

  function Handle(x: Exchange, captured: bool, limits: Limits, worth: Worth): (r: Handled) {
    if !captured then Handled(x.request, x.response, None)
    else
      var q := CaptureRequest(x.request, limits.request);
      if x.response.None? then Handled(q.body, None, None)
      else
        var p := RecordResponse(x.response.value, limits.response, limits.safetyCap,
                                WorthFor(worth, x.reply.contentType));
        var result := CaptureResponse(x.reply, p.stored);
        Handled(q.body, Some(p.resp),
                if p.pushed then Some(CombineEntry(RequestEntry(x.head, q.stored), result, x.id, x.now)) else None)
  }

  /** The stored copy of a body is absent or complete. */
  predicate AbsentOrComplete(stored: Option<bytes>, original: Option<Body>) {
    stored.None? || stored.value == Readable(original)
  }

  /** The entry describes the exchange: request and response side by side, with their own id and time. */
  predicate Describes(e: Entry, x: Exchange) {
    && e.id == x.id && e.timestamp == x.now && e.durationMs == x.reply.durationMs
    && e.verb == x.head.verb && e.url == x.head.url && e.scheme == x.head.scheme
    && e.host == x.head.host && e.path == x.head.path && e.requestHeaders == x.head.headers
    && e.statusCode == x.reply.statusCode && e.responseHeaders == x.reply.headers
    && e.contentType == x.reply.contentType
  }

  /** An entry tells the truth about an exchange. */
  predicate Faithful(e: Entry, x: Exchange) {
    && Describes(e, x)
    && x.response.Some?
    && AbsentOrComplete(e.requestBody, x.request)
    && AbsentOrComplete(e.responseBody, x.response.value.body)
  }

  /** The request has a body to store: it could be read, and is within the limit if there is one. */
  predicate KeepsRequest(x: Exchange, limit: int64) {
    && x.request.Some? && !RequestReadFails(x.request.value, limit)
    && (limit <= 0 || limit == MAX_INT64 || |Readable(x.request)| <= limit)
  }

  /** The response has a body to store: it is not an event stream of unknown length, it could be read, it is
      within the limit if there is one, and what was read of it is not empty and worth storing. */
  predicate KeepsResponse(resp: Response, contentType: string, limit: int64, safetyCap: int64, worth: Worth) {
    && resp.body.Some? && (resp.contentLength >= 0 || !resp.streamType)
    && !ReadFails(resp, limit, safetyCap)
    && (limit <= 0 || |Readable(resp.body)| <= limit < MAX_INT64)
    && var read := Wanted(resp.body.value, ResponseBound(resp.contentLength, limit, safetyCap));
       read > 0 && worth(contentType, Readable(resp.body)[..read])
  }

  /** The exchanges whose entry does not tell the truth: at the largest request limit any non-empty
      request, and without a response limit a body of unknown length that is cut at the safety cap
      and worth storing up to there. */
  predicate Misreported(x: Exchange, limits: Limits, worth: Worth) {
    || (x.request.Some? && limits.request == MAX_INT64 && Readable(x.request) != [])
    || (&& x.response.Some? && CutAtSafetyCap(x.response.value, limits.response, limits.safetyCap)
        && worth(x.reply.contentType, AllBytes(x.response.value.body.value)[..limits.safetyCap]))
  }

  /** One exchange: filtered traffic is passed on as it came; of captured traffic the response bytes
      all reach the client, with the failures ahead and the length they should have, the request bytes
      all reach the server unless reading them fails after some were consumed, and the entry, if there is
      one, keeps the bodies that are to be kept and is faithful exactly when the exchange is not a
      misreported one. */
  lemma ExchangeFaithful(x: Exchange, captured: bool, limits: Limits, worth: Worth)
    ensures var r := Handle(x, captured, limits, worth);
            && (!captured ==> r == Handled(x.request, x.response, None))
            && r.response.Some? == x.response.Some?
            && (captured ==> RequestPassedOn(x.request, r.request, limits.request))
            && (captured && x.response.Some? ==>
                  ResponsePassedOn(x.response.value, r.response.value, limits.response, limits.safetyCap))
            && (x.response.Some? ==> Readable(r.response.value.body) == Readable(x.response.value.body))
            && (Readable(r.request) == Readable(x.request) <==>
                !(captured && x.request.Some? && RequestReadFails(x.request.value, limits.request)
                  && FirstFault(x.request.value).value.0 > 0))
            && (r.entry.Some? <==>
                captured && x.response.Some? && !ReadFails(x.response.value, limits.response, limits.safetyCap))
            && (r.entry.Some? ==>
                  var e := r.entry.value;
                  && Describes(e, x)
                  && (e.requestBody.Some? <==> KeepsRequest(x, limits.request))
                  && (e.responseBody.Some? <==>
                      KeepsResponse(x.response.value, x.reply.contentType, limits.response, limits.safetyCap, worth))
                  && (Faithful(e, x) <==> !Misreported(x, limits, worth)))
  {
    hide Readable, CaptureRequest, RecordResponse, ReadFails, RequestReadFails, RequestPassedOn, ResponsePassedOn;
    RequestTransparent(x.request, limits.request);
    CapturePassesOn(x.request, limits.request);
    StoredRequestComplete(x.request, limits.request);
    StoredRequestWhen(x.request, limits.request);
    if x.response.Some? {
      var resp, test := x.response.value, WorthFor(worth, x.reply.contentType);
      ResponseTransparent(resp, limits.response, limits.safetyCap, test);
      RecordPassesOn(resp, limits.response, limits.safetyCap, test);
      StoredResponseComplete(resp, limits.response, limits.safetyCap, test);
      StoredResponseWhen(resp, limits.response, limits.safetyCap, test);
      PushedUnlessReadFails(resp, limits.response, limits.safetyCap, test);
    }
  }

  /** The store after a sequence of exchanges, each captured or filtered out. */
  function StoreAfter(capacity: nat, xs: seq<Exchange>, filters: Filters, limits: Limits, worth: Worth)
    : (v: StoreVal)
    requires 0 < capacity
    ensures v.capacity == capacity
  {
    if xs == [] then Empty(capacity)
    else
      var v := StoreAfter(capacity, xs[..|xs| - 1], filters, limits, worth);
      var x := xs[|xs| - 1];
      var r := Handle(x, ShouldCapture(filters, x.head.url), limits, worth);
      if r.entry.Some? then Insert(v, r.entry.value) else v
  }

  /** The pushes a sequence of exchanges makes, in order. */
  function PushesOf(xs: seq<Exchange>, filters: Filters, limits: Limits, worth: Worth): (ops: seq<Op>) {
    if xs == [] then []
    else
      var x := xs[|xs| - 1];
      var r := Handle(x, ShouldCapture(filters, x.head.url), limits, worth);
      PushesOf(xs[..|xs| - 1], filters, limits, worth) + if r.entry.Some? then [Push(r.entry.value)] else []
  }

  /** The store is the run of those pushes, so every theorem about runs applies to it. */
  lemma {:induction false} StoreIsRun(
    capacity: nat, xs: seq<Exchange>, filters: Filters, limits: Limits, worth: Worth)
    requires 0 < capacity
    ensures StoreAfter(capacity, xs, filters, limits, worth) == Run(capacity, PushesOf(xs, filters, limits, worth))
  {
    hide Handle, Insert;
    if xs == [] {
    } else {
      var before := xs[..|xs| - 1];
      StoreIsRun(capacity, before, filters, limits, worth);
      var ops, more := PushesOf(before, filters, limits, worth), PushesOf(xs, filters, limits, worth);
      assert more != ops ==> more[..|more| - 1] == ops;
    }
  }

  /** This resident entry was made for this exchange, which passed the filter, and is faithful to it
      exactly when it is not a misreported one. */
  ghost predicate MadeFor(e: Entry, x: Exchange, filters: Filters, limits: Limits, worth: Worth) {
    && ShouldCapture(filters, x.head.url)
    && Handle(x, true, limits, worth).entry == Some(e)
    && Describes(e, x)
    && (Faithful(e, x) <==> !Misreported(x, limits, worth))
  }

  /** Whatever sequence of exchanges the proxy has seen, and whatever its limits, the resident entries were
      made for exchanges that came in the same order, one entry for one exchange. */
  lemma {:induction false} StoreIsFaithful(
    capacity: nat, xs: seq<Exchange>, filters: Filters, limits: Limits, worth: Worth)
    returns (origin: seq<nat>)
    requires 0 < capacity
    ensures var queue := StoreAfter(capacity, xs, filters, limits, worth).queue;
            && |origin| == |queue|
            && (forall k :: 0 <= k < |queue| ==>
                  origin[k] < |xs| && MadeFor(queue[k], xs[origin[k]], filters, limits, worth))
            && (forall k, l :: 0 <= k < l < |queue| ==> origin[k] < origin[l])
  {
    hide Handle, MadeFor, EntryBytes;
    if xs == [] {
      origin := [];
    } else {
      var before, x := xs[..|xs| - 1], xs[|xs| - 1];
      var v := StoreAfter(capacity, before, filters, limits, worth);
      origin := StoreIsFaithful(capacity, before, filters, limits, worth);
      var entry := Handle(x, ShouldCapture(filters, x.head.url), limits, worth).entry;
      if entry.Some? {
        EntryIsMadeFor(x, filters, limits, worth);
        var kept := if |v.queue| == capacity then origin[1..] else origin;
        origin := kept + [|xs| - 1];
      }
    }
  }

  lemma EntryIsMadeFor(x: Exchange, filters: Filters, limits: Limits, worth: Worth)
    requires Handle(x, ShouldCapture(filters, x.head.url), limits, worth).entry.Some?
    ensures MadeFor(Handle(x, ShouldCapture(filters, x.head.url), limits, worth).entry.value, x, filters, limits, worth)
  {
    hide Handle, Faithful, Misreported;
    ExchangeFaithful(x, ShouldCapture(filters, x.head.url), limits, worth);
  }

  /** The exchanges left by one optional pattern: those it matches, or those it does not. */
  function Pass(xs: seq<Exchange>, pattern: Option<string -> bool>, matching: bool): (r: seq<Exchange>) {
    if xs == [] then []
    else
      var x := xs[|xs| - 1];
      Pass(xs[..|xs| - 1], pattern, matching) +
      if pattern.None? || pattern.value(x.head.url) == matching then [x] else []
  }

  const NO_FILTERS: Filters := Filters(None, None)

  /** Traffic the filters keep out leaves no trace in the store: it is the store of a proxy without
      filters that saw only what passes the include pattern and then the exclude pattern. */
  lemma {:induction false} FilteredLeaveNoTrace(
    capacity: nat, xs: seq<Exchange>, filters: Filters, limits: Limits, worth: Worth)
    requires 0 < capacity
    ensures var kept := Pass(Pass(xs, filters.includeRE, true), filters.excludeRE, false);
            StoreAfter(capacity, xs, filters, limits, worth) == StoreAfter(capacity, kept, NO_FILTERS, limits, worth)
  {
    hide Handle, Pass, StoreAfter, Insert;
    if xs == [] {
      NothingPasses(filters.includeRE, true);
      NothingPasses(filters.excludeRE, false);
      EmptyStore(capacity, filters, limits, worth);
      EmptyStore(capacity, NO_FILTERS, limits, worth);
    } else {
      var before, x := xs[..|xs| - 1], xs[|xs| - 1];
      FilteredLeaveNoTrace(capacity, before, filters, limits, worth);
      var included := Pass(before, filters.includeRE, true);
      var kept := Pass(included, filters.excludeRE, false);
      assert xs == before + [x];
      StoreStep(capacity, before, x, filters, limits, worth);
      StoreStep(capacity, kept, x, NO_FILTERS, limits, worth);
      PassStep(before, x, filters.includeRE, true);
      PassStep(included, x, filters.excludeRE, false);
      UncapturedMakesNoEntry(x, limits, worth);
    }
  }

  lemma NothingPasses(pattern: Option<string -> bool>, matching: bool)
    ensures Pass([], pattern, matching) == []
  {
  }

  lemma EmptyStore(capacity: nat, filters: Filters, limits: Limits, worth: Worth)
    requires 0 < capacity
    ensures StoreAfter(capacity, [], filters, limits, worth) == Empty(capacity)
  {
  }

  lemma PassStep(xs: seq<Exchange>, x: Exchange, pattern: Option<string -> bool>, matching: bool)
    ensures Pass(xs + [x], pattern, matching) ==
            if pattern.None? || pattern.value(x.head.url) == matching then Pass(xs, pattern, matching) + [x]
            else Pass(xs, pattern, matching)
  {
    assert (xs + [x])[..|xs|] == xs && (xs + [x])[|xs|] == x;
    assert Pass(xs, pattern, matching) + [] == Pass(xs, pattern, matching);
  }

  lemma StoreStep(
    capacity: nat, xs: seq<Exchange>, x: Exchange, filters: Filters, limits: Limits, worth: Worth)
    requires 0 < capacity
    ensures StoreAfter(capacity, xs + [x], filters, limits, worth) ==
            var r := Handle(x, ShouldCapture(filters, x.head.url), limits, worth);
            var v := StoreAfter(capacity, xs, filters, limits, worth);
            if r.entry.Some? then Insert(v, r.entry.value) else v
  {
    hide Handle, Insert;
    assert (xs + [x])[..|xs|] == xs && (xs + [x])[|xs|] == x;
  }

  lemma UncapturedMakesNoEntry(x: Exchange, limits: Limits, worth: Worth)
    ensures Handle(x, false, limits, worth).entry == None
  {
  }

  /** There are misreported exchanges: with no response limit, a body of unknown length one
      byte longer than the safety cap is stored without its last byte. */
  lemma UnlimitedCanStorePrefix(head: RequestHead, reply: ReplyHead, id: EntryID, now: int)
    ensures var resp := Response(Some(Body([Chunk([7, 7], false)], false)), -1, false);
            var all := (contentType: string, b: bytes) => true;
            var r := Handle(Exchange(head, None, Some(resp), reply, id, now), true, Limits(0, 0, 1), all);
            r.entry.Some? && r.entry.value.responseBody == Some([7]) && Readable(resp.body) == [7, 7]
  {
    var body := Body([Chunk([7, 7], false)], false);
    assert ReadLimited(body, 1).data == [7];
  }
}
