# goper in Dafny

A model of goper, a capture proxy, and proofs about the six parts of it that carry state,
byte arithmetic or interleavings. `dafny verify dfyconfig.toml` checks all of it.

| file | what it models |
|---|---|
| `Entries.dfy` | captured entries and the id counter |
| `Store.dfy` | the capture store as a value: bounded queue, id index, lifetime counters, filtered paging, backfill; theorems over every sequence of Push and Clear |
| `Ring.dfy` | the circular array that implements the store, as a class updated in place, each method proved against the store value |
| `Channels.dfy`, `Feed.dfy` | subscriber channels, and the live feed as a step system in which the locked part of a Push, each single send of its notify loop, Subscribe, Unsubscribe and Receive interleave freely |
| `FeedRuns.dfy` | theorems over every schedule of the feed: who gets what and in which order, when a push panics, what a stream client is sent |
| `Stream.dfy` | the event-stream handler as an imperative loop over the shared feed, with steps of other goroutines between its own |
| `Sni.dfy`, `TlsGrammar.dfy` | the ClientHello server-name peeker with its offset loops; the wire format of sections 4, 4.1.2 and 5.1 of RFC 8446 and section 3 of RFC 6066, an encoder, and the proofs that connect them |
| `Bodies.dfy` | bounded body capture over readers that may fail anywhere |
| `Proxy.dfy` | whole exchanges: filter, captured request, recorded response, stored entry |
| `CertCache.dfy` | the double-checked certificate cache, with every lock operation a step |
| `Iptables.dfy` | the rule manager over a kernel chain, commands failing midway, and what the chain does to traffic |
| `Listener.dfy` | the one-connection listener and the wrapper that releases it |
| `Basics.dfy` | optional values, 64-bit wrap-around, decimal formatting, list helpers |

Concurrent code is modelled twice: as objects with methods, and as a step system whose
theorems quantify over every schedule (`At(..., steps, n)` is the state after the first n
steps of any list of steps). An undisturbed call of a step system does what the object does
(`CertCache.SoloIsFetched`, `Listener.SoloAccept`, `Listener.SoloClose`,
`Listener.SoloConnClose`; the store's objects and steps share the functions of `Store.dfy`
and `Channels.dfy`). Clocks, generated keys, outcomes of commands and the bytes a peer sends are parameters.

## Where the code and its comments part

The code is modelled; each lemma below says when the comment would be true.

- Backfill is documented as the most recent N entries; the code sends the oldest N
  (`Store.BackfillIsOldest`). The two agree exactly when N covers the whole store
  (`Store.BackfillIsMostRecent`).
- Entries captured between the backfill List and the Subscribe are documented as possibly
  sent twice; they are never sent (`FeedRuns.GapIsMissed`, `FeedRuns.NoDoubleDelivery`).
- Notification runs outside the lock. A send panics exactly when its channel is
  unsubscribed between the push's snapshot and the send (`FeedRuns.PanicExactly`), and
  that schedule is reachable (`FeedRuns.PanicIsReachable`). The panic also starves the
  subscribers behind that channel (`FeedRuns.StarvedIsReachable`); apart from that and from
  full channels nothing is missed (`FeedRuns.LiveIsComplete`). Deliveries may also overtake
  each other (`FeedRuns.DeliveryCanOvertake`): a channel hands entries over in the order of
  the sends (`FeedRuns.LogOrderExactly`), which is that of the pushes if each is done before
  the next takes the lock (`FeedRuns.SequentialPushesInOrder`).
- Pushing an id that is still resident makes the later eviction of the older entry unlink
  the newer one (`Store.ResidentCanBeLost`, `Store.IndexExact`). Lookup and search differ
  exactly for the ids that clashed (`Store.LookupFailsOnClash`); ids from the counter never
  do (`Store.ProxyRunLookup`).
- Without a body limit a response of unknown length over the safety cap is flagged as
  truncated but stored cut off (`Bodies.StoredResponseComplete`). `Proxy.StoreIsFaithful`
  says of every entry of the store whether it is such a one.
- At the largest 64-bit limit, limit+1 wraps: responses are announced with length 0
  (`Bodies.ContentLengthHonest`) and requests are stored as the empty string
  (`Bodies.StoredRequestComplete`).
- A failed capture read loses the consumed part of a request, but not of a response
  (`Bodies.RequestTransparent`, `Bodies.ResponseTransparent`); of a response the failure
  itself is swallowed (`Bodies.ResponseFailsAlike`).
- A check command that exits with an error of its own reads as "rule absent" and can
  duplicate a rule (`Iptables.DuplicatedExactly`, `Iptables.SetupDuplicatesExactly`,
  `Iptables.SetupCanDuplicate`). After a Teardown with a failed delete, a
  clean Setup can put the rule that exempts goper's own traffic behind a redirect
  (`Iptables.FailedDeleteReorders`, `Iptables.ReorderedChainLoops`); the order is restored
  exactly when the remaining rules are a prefix of the list (`Iptables.SetupOrder`).
- Teardown deletes the exemption before the redirects, so goper's own traffic is redirected
  to itself while it runs, and after it if a delete fails (`Iptables.TeardownTraffic`).
  Setup neither causes nor cures that (`Iptables.SetupKeepsExposure`).
- The first Accept hands out the connection even after the listener was closed
  (`Listener.FirstAcceptGetsConn`).

## Model

| member | source | states |
|---|---|---|
| Entries.IdInjective | internal/capture/entry.go:30-32 | an id determines the second and the counter value it was built from |
| Entries.IdReadsBack | internal/capture/entry.go:30-32 | an id is the second, a dash and a decimal that reads back as the counter |
| Entries.IdSource.NewEntryID | internal/capture/entry.go:28-32 | each call advances the shared counter by one, with 64-bit wrap-around, and formats it |
| Entries.DrawIds | internal/capture/entry.go:28-32 | k calls from a fresh counter give the id run used by the theorems |
| Entries.IdRunCollision | internal/capture/entry.go:28-32 | two ids of a process coincide exactly when drawn in one second a multiple of 2^64 calls apart |
| Entries.IdRunDistinct | internal/capture/entry.go:28-32 | up to 2^64 ids are pairwise distinct whatever the clock does |
| Entries.EntryBytesCountsBodies | internal/capture/store.go:246-255 | the length of both retained bodies together, absent ones empty |
| Entries.Finalize | internal/capture/store.go:82-89 | fills in a missing id and a missing timestamp, each on its own, and changes nothing else |
| Store.QueueIsLastPushes | internal/capture/store.go:57-98 | after any pushes and clears the store is the last `capacity` entries pushed since the last Clear, in order |
| Store.Conservation | internal/capture/store.go:57-98 | pushes = resident + evicted + discarded by Clear; never over capacity; the 64-bit counters hold the evictions and the body bytes of all pushes ever, up to wrap-around |
| Store.IndexExact | internal/capture/store.go:67-125 | exactly which entry, if any, the index yields for every id after every run, duplicate ids included |
| Store.HitIsResident | internal/capture/store.go:112-125 | every index hit is a resident entry with the requested id |
| Store.LookupExactly | internal/capture/store.go:112-125 | for every run and id, indexed lookup equals linear search iff the id's oldest resident entry is its newest and no eviction has unlinked it |
| Store.LookupFailsOnClash | internal/capture/store.go:67-98 | for distinct entries: iff no resident entry was pushed while another with its id was resident |
| Store.ResidentCanBeLost | internal/capture/store.go:92-98 | three pushes after which an entry is in the store and lookup of its id finds nothing |
| Store.LookupIsSearch | internal/capture/store.go:112-125 | if no id is pushed while resident, lookup equals search for every id |
| Store.ProxyRunLookup | internal/capture/capture.go:226-237 | ids drawn from the counter satisfy that condition in whatever order concurrent pushes land |
| Store.FilterExactly | internal/capture/store.go:168-194 | an entry is listed iff it is in the store and agrees with every filter that is set |
| Store.FiltersCompose | internal/capture/store.go:168-178 | the four filters are the composition of the two pairs |
| Store.FilterByEntry | internal/capture/store.go:148-163 | filtering works entry by entry, so it keeps order and number |
| Store.ListExactly | internal/capture/store.go:136-213 | for all options a listing is the matches from the offset, clamped, on, up to the limit if there is one |
| Store.PagesConcatenate | internal/capture/store.go:197-213 | the first m pages of size k are the first m*k matches; past the end pages are empty |
| Store.BackfillIsOldest | internal/api/handlers_sse.go:81-87 | backfill N sends the oldest min(N, count) entries |
| Store.BackfillIsMostRecent | internal/api/handlers_sse.go:78-87 | for distinct entries that is the documented most recent N iff N is 0 or at least the count |
| Ring.SlotIsModulo | internal/capture/store.go:69-95 | the slot of the i-th oldest entry is (head + i) modulo the capacity |
| Ring.Replay | internal/capture/store.go:45-98 | a ring driven through any pushes and clears stands for the run the store theorems speak of |
| Ring.RingBuffer.constructor | internal/capture/store.go:45-55 | an empty store, of default capacity when asked for none |
| Ring.RingBuffer.EvictOldest | internal/capture/store.go:92-98 | on the array and index, removes the head of the queue and its id |
| Ring.RingBuffer.Insert | internal/capture/store.go:57-76 | the locked part of Push: occupied slots stay head..head+count-1 modulo capacity and the store value takes the entry, counters wrapping at 64 bits |
| Ring.RingBuffer.NotifySubscribers | internal/capture/store.go:102-110 | channels before the first closed one are offered the entry, the rest get nothing, and it panics iff one is closed |
| Ring.RingBuffer.Push | internal/capture/store.go:57-79 | undisturbed, stores the entry, offers it to every subscriber and cannot panic |
| Ring.RingBuffer.Get | internal/capture/store.go:112-125 | the indexed lookup of the store value |
| Ring.RingBuffer.Scan | internal/capture/store.go:148-163 | visiting every slot from the head yields the filtered queue oldest first |
| Ring.RingBuffer.List | internal/capture/store.go:136-145 | the requested page of the filtered queue |
| Ring.RingBuffer.Clear | internal/capture/store.go:215-224 | forgets entries and index, keeps lifetime counters |
| Ring.RingBuffer.Stats | internal/capture/store.go:232-242 | reports the store value's count, capacity and counters |
| Ring.RingBuffer.Subscribe | internal/capture/store.go:257-264 | appends a fresh, open, empty channel |
| Ring.RingBuffer.Unsubscribe | internal/capture/store.go:266-277 | removes and closes the channel if subscribed, else nothing; the others keep their order |
| Feed.InvAlways | internal/capture/store.go:57-110 | after every schedule: open channels = subscriber list, bounded queues, each push delivered or dropped once per channel it dealt with |
| FeedRuns.SubscribedExactly | internal/capture/store.go:257-277 | a channel is on the list exactly from its Subscribe to its first Unsubscribe |
| FeedRuns.SubscribersInOrder | internal/capture/store.go:257-277 | the list, and so every push's copy of it, is in the order of the Subscribes |
| FeedRuns.ChannelSafety | internal/capture/store.go:102-110 | in every schedule queues hold at most 100, no push is delivered twice to a channel, a channel is closed at most once |
| FeedRuns.DeliveredWhileSubscribed | internal/capture/store.go:57-79 | whatever a channel got comes from a push whose locked step fell while it was subscribed |
| FeedRuns.DonePushAccounted | internal/capture/store.go:102-110 | a push that is done delivered to a channel of its snapshot, or dropped there, never both, and neither iff it panicked at that channel or one before it |
| FeedRuns.SendExactly | internal/capture/store.go:102-110 | in every schedule a send panics iff its channel was unsubscribed since the snapshot, else passes over if 100 are queued, else appends; nothing else changes |
| FeedRuns.DroppedOnlyWhenFull | internal/capture/store.go:104-108 | an entry is passed over only by a send that found 100 entries queued |
| FeedRuns.LogGrows | internal/capture/store.go:104-108 | what was delivered to a channel only grows at its end |
| FeedRuns.LogOrderExactly | internal/capture/store.go:72-78 | an entry is ahead of another in a channel iff at some step it was delivered there and the other was not |
| FeedRuns.OrderKept | internal/capture/store.go:57-79 | a push that is done when another takes the lock is ahead of it in every channel that gets both |
| FeedRuns.SequentialPushesInOrder | internal/capture/store.go:57-79 | pushes that never overlap reach every channel in push order |
| FeedRuns.DeliveryCanOvertake | internal/capture/store.go:72-78 | a schedule in which the second push is delivered first |
| FeedRuns.PanicExactly | internal/capture/store.go:72-78 | a send panics iff its channel was unsubscribed after the push's snapshot |
| FeedRuns.NoPanicWithoutUnsubscribe | internal/capture/store.go:72-78 | a push whose channels stay subscribed until it is done never panics |
| FeedRuns.PanickedBecause | internal/capture/store.go:72-78 | a push that has panicked stopped at a channel that was unsubscribed between its snapshot and that send |
| FeedRuns.PanicIsReachable | internal/capture/store.go:266-276 | snapshot, unsubscribe, send: the panic occurs |
| FeedRuns.StarvedIsReachable | internal/capture/store.go:102-110 | a schedule in which a subscriber with an empty channel gets nothing because another one left |
| FeedRuns.StoreIsSequentialRun | internal/capture/store.go:57-79 | under every schedule the store is the sequential run of the Push and Clear steps |
| FeedRuns.NoDoubleDelivery | internal/api/handlers_sse.go:32-43 | no entry reaches a stream client both as backfill and live |
| FeedRuns.GapIsMissed | internal/api/handlers_sse.go:36-43 | a push locked between List and Subscribe reaches the client neither way |
| FeedRuns.LiveIsComplete | internal/api/handlers_sse.go:40-43 | once done, a push locked after Subscribe is delivered live or dropped on a full channel, except iff it panicked before getting past the client's channel, at a channel unsubscribed meanwhile |
| FeedRuns.ClientSentOnce | internal/api/handlers_sse.go:21-44 | all a client is sent, backfill and live, is free of duplicates in every schedule |
| Stream.WriteEntries | internal/api/handlers_sse.go:91-98 | sends the entries in order up to the lost connection and reports it |
| Stream.StreamSelect | internal/api/handlers_sse.go:57-76 | one round: ping, one step of anybody, and the entry if that step took one from the handler's channel |
| Stream.LiveFramesExactly | internal/api/handlers_sse.go:49-98 | the frames due hold one ping per tick and the entries handed over, in order, up to the cancel or the closed and empty channel, and nothing later |
| Stream.StreamLoop | internal/api/handlers_sse.go:49-76 | among steps of others, sends exactly the frames due, stops where the stream ends unless the connection is lost before; of the entries its channel handed over only one whose write failed is missing |
| Stream.StreamLive | internal/api/handlers_sse.go:40-43 | subscribes, forwards, and, with others stepping in between, leaves its channel closed and off the list |
| Stream.StreamRequests | internal/api/handlers_sse.go:21-44 | in any schedule the client is sent the backfill read at the List step and then all its channel handed over, with the pings due, cut off exactly at the lost connection; no entry twice |
| Sni.SniFromServerNameList | internal/proxy/transparent_shared.go:226-257 | in bounds and terminating; the walk of the clamped name list |
| Sni.ShortPayloadHasNoHost | internal/proxy/transparent_shared.go:219-221 | a payload of at most five bytes holds no non-empty name, so the length test rejects nothing |
| Sni.SniFromExtension | internal/proxy/transparent_shared.go:210-221 | equals the walk without the length test |
| Sni.SniFromExtensions | internal/proxy/transparent_shared.go:196-207 | in bounds and terminating; the walk of the extension block |
| Sni.ParseClientHello | internal/proxy/transparent_shared.go:90-191 | total on all bytes; the host of the clamped extension block |
| Sni.PeekHello | internal/proxy/transparent_shared.go:37-88 | reads one record, all error cases, empty name when there is none |
| TlsGrammar.NameListExactly | internal/proxy/transparent_shared.go:226-243 | any bytes are, in one way only, a list of names and an incomplete rest |
| TlsGrammar.ExtBlockExactly | internal/proxy/transparent_shared.go:196-207 | any bytes are, in one way only, a list of extensions and an incomplete rest |
| TlsGrammar.PayloadGrammar | internal/proxy/transparent_shared.go:226-251 | the name walk finds the first non-empty host_name of the clamped list |
| TlsGrammar.ExtensionsGrammar | internal/proxy/transparent_shared.go:193-207 | the extension walk finds the first server_name extension with a host |
| TlsGrammar.ParserIsGrammar | internal/proxy/transparent_shared.go:90-191 | for every byte string and name: parsed iff the bytes encode a ClientHello whose clamped extension block holds it first |
| TlsGrammar.MessageRoundTrip | internal/proxy/transparent_shared.go:90-257 | parsing an encoded ClientHello gives its first non-empty host_name, or none |
| TlsGrammar.RoundTrip | internal/proxy/transparent_shared.go:37-50 | the same through the record and the 64 KiB peek buffer, whatever follows |
| TlsGrammar.RecordIsPeeked | internal/proxy/transparent_shared.go:37-88 | every whole non-empty handshake record that fits the buffer is peeked and shows the host of its payload, whatever follows |
| TlsGrammar.PeekSucceedsExactly | internal/proxy/transparent_shared.go:53-88 | peeking succeeds iff the connection begins with such a record |
| TlsGrammar.PeekFailsExactly | internal/proxy/transparent_shared.go:53-88 | which error is given for which bytes, exactly |
| TlsGrammar.OversizedRecordFails | internal/proxy/transparent_loop.go:178 | a record over 65531 bytes is refused although its length field allows it |
| TlsGrammar.PrefixStable | internal/proxy/transparent_shared.go:110-243 | if a prefix of a message yields a name, the message yields the same name |
| TlsGrammar.CutMessage | internal/proxy/transparent_shared.go:110-243 | a message cut anywhere shows its server name iff the first server_name extension that has a host is whole, and no other name |
| TlsGrammar.FragmentShowsTrueName | internal/proxy/transparent_shared.go:37-74 | the first record of a fragmented ClientHello shows the name iff it reaches the end of that extension |
| Bodies.ReadUpToExact | internal/proxy/proxy_body.go:115-123 | a bounded read returns exactly the bytes asked for, or those before the failure; the rest stays |
| Bodies.ResponseTransparent | internal/proxy/proxy_body.go:68-99 | the client still reads every byte in order, for every reader and limit, on success, truncation, failure and skip |
| Bodies.ResponseFailsAlike | internal/proxy/proxy_body.go:87-99 | the client meets all failures of the body at the same bytes as without the proxy, less the one the capture read met |
| Bodies.PushedUnlessReadFails | internal/proxy/proxy.go:188-204 | an entry is pushed iff no failure lies within the bytes capture reads |
| Bodies.ContentLengthHonest | internal/proxy/proxy.go:188-224 | afterwards the length is -1 or right iff the bound is usable or the body is empty |
| Bodies.LengthExactly | internal/proxy/proxy.go:188-224 | for every response, limit and cap the exact length announced: -1 iff the body is longer than what was read, else its length, 0 without a body |
| Bodies.StoredResponseComplete | internal/proxy/proxy_body.go:101-123 | a stored response body is complete, except exactly those cut at the safety cap |
| Bodies.StoredResponseWhen | internal/capture/capture.go:42-54 | exactly when a response body is stored at all |
| Bodies.StoredRequestWhen | internal/capture/capture.go:34-40 | exactly when a request body is stored at all |
| Bodies.RequestTransparent | internal/capture/capture.go:104-135 | the upstream reads every byte iff the capture read does not fail after consuming some; otherwise which are lost |
| Bodies.RequestFailsAlike | internal/capture/capture.go:114-121 | the server meets all failures of the body as it would have, counted from the lost bytes, less the one the capture read met |
| Bodies.RequestCanLoseBytes | internal/capture/capture.go:114-121 | a body for which that happens |
| Bodies.StoredRequestComplete | internal/capture/capture.go:34-54 | a stored request body is complete unless the limit is the largest integer |
| Bodies.HttpResponse.ReadAndRewire | internal/proxy/proxy_body.go:90-99 | reads and puts the bytes back, also on failure |
| Bodies.HttpResponse.ReadBounded | internal/proxy/proxy_body.go:68-79 | body, truncated, skipped and error results |
| Bodies.HttpResponse.FixContentLength | internal/proxy/proxy.go:218-224 | -1 when truncated, else the captured length |
| Bodies.HttpResponse.Record | internal/proxy/proxy.go:188-204 | leaves the response and the stored body the theorems speak of |
| Bodies.HttpRequest.Capture | internal/capture/capture.go:34-40 | leaves the request and the stored body the theorems speak of |
| Proxy.FilteredLeaveNoTrace | internal/proxy/proxy.go:150-173 | after any exchanges the store is that of an unfiltered proxy which saw only what passes the include pattern and then the exclude pattern |
| Proxy.ExchangeFaithful | internal/proxy/proxy.go:134-213 | filtered traffic passes untouched; what reaches client and server of captured traffic, bytes, failures and length; when there is an entry and which bodies it keeps, exactly; each descriptive field is that of the exchange; the entry is faithful iff neither the request limit wraps over a non-empty request nor the response is stored cut at the safety cap |
| Proxy.StoreIsRun | internal/proxy/proxy_body.go:27-47 | after any exchanges the store is the run of the pushes they make, so all theorems about runs apply |
| Proxy.StoreIsFaithful | internal/proxy/proxy_body.go:27-47 | under all limits, the resident entries were made one each, in order, for exchanges that passed the filter, and each is faithful to its own under exactly that condition |
| Proxy.UnlimitedCanStorePrefix | internal/proxy/proxy_body.go:101-109 | without a response limit an exchange whose entry holds a strict prefix |
| CertCache.HostForHello | internal/proxy/mitm_cert_cache.go:60-77 | the host is never empty: the SNI, else the local address, else localhost |
| CertCache.Cache.GetCertificate | internal/proxy/mitm_cert_cache.go:42-56 | one undisturbed call: cached, generated and stored, or failed with the cache unchanged |
| CertCache.Cache.CertOrGenerate | internal/proxy/mitm_cert_cache.go:81-92 | the second lookup and the generation |
| CertCache.InvAlways | internal/proxy/mitm_cert_cache.go:42-56 | in every schedule a writer excludes all others and every generated certificate is cached or about to be |
| CertCache.GeneratedOnce | internal/proxy/mitm_cert_cache.go:81-92 | generation succeeds at most once per host |
| CertCache.SameCertificateForever | internal/proxy/mitm_cert_cache.go:42-56 | all successful calls for a host return the same certificate at any two moments |
| CertCache.FailureLeavesNoTrace | internal/proxy/mitm_cert_cache.go:81-92 | in every schedule a call that failed had its own generation fail, and from then until it returned and freed the lock the cache stayed as it was, without the host |
| CertCache.SoloIsFetched | internal/proxy/mitm_cert_cache.go:42-92 | an undisturbed call of the step system does what the object does, so a later call can retry |
| CertCache.NoDeadlock | internal/proxy/mitm_cert_cache.go:45-53 | while a call is unfinished some call can move |
| Iptables.Manager.constructor | internal/iptables/iptables.go:39-67 | the three rules in order |
| Iptables.Manager.Ensure | internal/iptables/iptables.go:82-139 | check, then append; only a check that cannot run is an error |
| Iptables.Manager.Setup | internal/iptables/iptables.go:69-79 | ensures each rule in turn, stopping at the first error |
| Iptables.Manager.Teardown | internal/iptables/iptables.go:108-124 | deletes each rule in turn, ignoring failures |
| Iptables.DuplicatedExactly | internal/iptables/iptables.go:126-139 | a rule is duplicated iff its check is misread and the append works |
| Iptables.EnsureEnds | internal/iptables/iptables.go:82-139 | when ensuring a rule completes and when it fails, exactly, and how many commands it takes |
| Iptables.SetupStopsAtFirst | internal/iptables/iptables.go:69-79 | Setup ends as the first rule that does not complete does, and touches none behind it |
| Iptables.WorkingSetupCompletes | internal/iptables/iptables.go:69-106 | on every chain a Setup whose commands work completes, appending exactly the missing rules |
| Iptables.SetupDuplicatesExactly | internal/iptables/iptables.go:69-106 | a Setup leaves some rule twice iff a misread check is followed by an append that works |
| Iptables.SetupCanDuplicate | internal/iptables/iptables.go:126-139 | a Setup that does |
| Iptables.SetupAppends | internal/iptables/iptables.go:69-106 | wherever it stops, Setup appended the first j missing rules in order; all if completed |
| Iptables.SetupIdempotent | internal/iptables/iptables.go:81-91 | a second Setup changes nothing |
| Iptables.AlwaysPrefix | internal/iptables/iptables.go:49-106 | over any stopped Setups and foreign edits, goper's rules are an in-order duplicate-free prefix of its list and foreign rules are untouched |
| Iptables.OnceAlways | internal/iptables/iptables.go:69-124 | over any Setups that duplicate nothing, Teardowns and foreign edits no rule of goper's is there twice, and foreign rules change by foreign edits alone |
| Iptables.TeardownParts | internal/iptables/iptables.go:108-124 | Teardown never touches a foreign rule and treats goper's part as if it were alone |
| Iptables.TeardownClears | internal/iptables/iptables.go:108-124 | none of goper's rules remains iff each was absent, or there once and its delete worked; with no failure, iff none was there twice |
| Iptables.TeardownRestores | internal/iptables/iptables.go:108-124 | after any Setups and Teardowns, completed or not, a clean Teardown leaves exactly the foreign rules: the original chain if nobody else edited it |
| Iptables.SetupOrder | internal/iptables/iptables.go:69-106 | a completed Setup restores the order iff the rules it found were a prefix of the list |
| Iptables.FailedDeleteReorders | internal/iptables/iptables.go:108-121 | one failed delete then a clean Setup puts the exemption behind the 443 redirect |
| Iptables.RedirectedExactly | internal/iptables/iptables.go:49-66 | on every chain, reading the rules by their text: goper's own traffic is redirected iff its redirect comes before the exemption, other web traffic iff its redirect is there, anything else never |
| Iptables.TrafficOverRuns | internal/iptables/iptables.go:49-66 | at any moment of any Setup runs goper's own traffic is not redirected; after a completed one all other web traffic is |
| Iptables.TeardownTraffic | internal/iptables/iptables.go:108-121 | at every moment of a Teardown own traffic is redirected iff the exemption is deleted and the installed redirect of its port is not |
| Iptables.SetupKeepsExposure | internal/iptables/iptables.go:69-106 | wherever Setup stops, own traffic is redirected afterwards iff it was before |
| Iptables.ReorderedChainLoops | internal/iptables/iptables.go:49-66 | the reordered chain redirects goper's own 443 traffic |
| Listener.SingleConnListener.Accept | internal/proxy/transparent_loop.go:50-61 | the connection first, then an error once closed, else it waits |
| Listener.SingleConnListener.Close | internal/proxy/transparent_loop.go:63-66 | the channel is closed exactly once |
| Listener.CloseNotifyConn.Close | internal/proxy/transparent_loop.go:78-82 | closes the inner connection each time; the listener is released on return |
| Listener.SoloAccept | internal/proxy/transparent_loop.go:50-61 | an undisturbed Accept of the step system does what the object does |
| Listener.SoloClose | internal/proxy/transparent_loop.go:63-66 | so does an undisturbed listener Close |
| Listener.SoloConnClose | internal/proxy/transparent_loop.go:78-82 | so does an undisturbed connection Close |
| Listener.InvAlways | internal/proxy/transparent_loop.go:41-82 | in every schedule the once guards, the channel and the hand-out agree |
| Listener.HandedOutOnce | internal/proxy/transparent_loop.go:50-61 | at most one Accept gets the connection |
| Listener.ClosedOnce | internal/proxy/transparent_loop.go:63-66 | the channel is closed at most once |
| Listener.ErrorFollowsClose | internal/proxy/transparent_loop.go:50-66 | an Accept that fails does so after a Close was called |
| Listener.ReleasedAfterClose | internal/proxy/transparent_loop.go:276-284 | once a Close has returned no Accept is blocked |
| Listener.StuckOnlyUnclosed | internal/proxy/transparent_loop.go:37-82 | when nothing can move, only Accepts of a listener nobody closed are waiting |
| Listener.FirstAcceptGetsConn | internal/proxy/transparent_loop.go:50-57 | in every schedule an Accept gets the connection iff it is the first to take its step, whatever Closes came before |
| Listener.AcceptAfterCloseReachable | internal/proxy/transparent_loop.go:50-66 | a schedule in which it is handed out after a Close |

## Left out

- Ring.RingBuffer.Insert: entries are values, so later changes through a shared reference are not modelled.
- Stream.StreamSelect: one round joins a ping that is due with the step after it, and the end of the request is tested by the loop; the choices of the source's select are the orders of the given turns and alarms.
- Bodies.HttpResponse.Record: returns the entry's body instead of pushing it (Proxy.StoreIsFaithful does push it, into the store value); outputs are not written; the printable-or-JSON test and the streaming content-type test are parameters; header maps are taken as stored, after redaction.
- Stream.WriteEntries: every entry can be marshalled (the source skips one that cannot); the response writer supports flushing.
- CertCache.Cache.GetCertificate: key generation and signing are one parameter that may fail.
- Iptables.RedirectedExactly: assumes no foreign rule decides the packet; other tables and chains are not modelled.
- Entries.IdInjective: the formatted second is any string of digits; years before 0 are excluded.
- Go's scheduler and memory model: a section under a lock, a channel operation and a call of a once function are single steps.
- CA generation, PEM storage, certificate signing, the TLS handshake, HTTP parsing and goproxy: library code.
- The original-destination lookup, peek deadlines, keepalive timers: system calls and clocks.
- The regular expressions of the URL filters (they are predicates here), header redaction, media-type normalisation, backfill parameter parsing, transparent URL rewriting: they would only add easy members.
- Output writers, replay, statistics and CA handlers, dashboard, configuration, browser scripts: thin wrappers.
