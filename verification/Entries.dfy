/** Captured entries and their identifiers (internal/capture/entry.go). */
module Entries {
  import opened Basics

  type EntryID = string

  datatype Entry = Entry(
    id: EntryID,
    timestamp: int,
    durationMs: int,
    verb: string,
    url: string,
    scheme: string,
    host: string,
    path: string,
    requestHeaders: map<string, string>,
    requestBody: Option<bytes>,
    statusCode: int,
    responseHeaders: map<string, string>,
    responseBody: Option<bytes>,
    contentType: string)

  /** Go's zero time.Time; every other timestamp is a number of ticks from it. */
  const ZERO_TIME: int := 0

  function OrEmpty(body: Option<bytes>): (r: bytes) {
    match body
    case None => []
    case Some(b) => b
  }

  /** Body bytes an entry retains; an absent body counts for nothing. */
  function EntryBytes(e: Entry): (n: nat) {
    (if e.requestBody.Some? then |e.requestBody.value| else 0) +
    (if e.responseBody.Some? then |e.responseBody.value| else 0)
  }

  lemma EntryBytesCountsBodies(e: Entry)
    ensures EntryBytes(e) == |OrEmpty(e.requestBody) + OrEmpty(e.responseBody)|
  {
  }

  /** The id and timestamp a store fills in when an entry arrives without them. */
  function Finalize(e: Entry, freshId: EntryID, now: int): (r: Entry)
    ensures e.id != "" ==> r.id == e.id
    ensures e.timestamp != ZERO_TIME ==> r.timestamp == e.timestamp
    ensures e.id == "" ==> r.id == freshId
    ensures e.timestamp == ZERO_TIME ==> r.timestamp == now
    ensures r == e.(id := r.id, timestamp := r.timestamp)
  {
    e.(id := if e.id == "" then freshId else e.id,
       timestamp := if e.timestamp == ZERO_TIME then now else e.timestamp)
  }

  /** Timestamp in seconds, a dash, and the shared counter in decimal. */
  function IdOf(stamp: string, counter: int64): (id: EntryID)
    ensures id != ""
  {
    stamp + "-" + Itoa(counter)
  }

  /** A formatted second: digits only, so it holds no dash. */
  predicate IsStamp(s: string) {
    forall i :: 0 <= i < |s| ==> '0' <= s[i] <= '9'
  }

  /** An id determines both the second and the counter value it was made from. */
  lemma IdInjective(s: string, a: int64, t: string, b: int64)
    requires IsStamp(s) && IsStamp(t)
    ensures IdOf(s, a) == IdOf(t, b) <==> s == t && a == b
  {
    if IdOf(s, a) == IdOf(t, b) {
      StampIsDelimited(s, a, t, b);
      StampIsDelimited(t, b, s, a);
      var id := IdOf(s, a);
      assert id[..|s|] == s && IdOf(t, b)[..|t|] == t;
      assert id[|s| + 1..] == Itoa(a) && IdOf(t, b)[|t| + 1..] == Itoa(b);
      ItoaInjective(a, b);
    }
  }

  /** An id is the second, a dash, and the counter in decimal: reading it gives them back. */
  lemma IdReadsBack(s: string, counter: int64)
    ensures var id := IdOf(s, counter);
            |s| < |id| && id[..|s|] == s && id[|s|] == '-' && ReadInt(id[|s| + 1..]) == counter
  {
    var id := IdOf(s, counter);
    assert id[|s| + 1..] == Itoa(counter);
    ItoaReadsBack(counter);
  }

  lemma StampIsDelimited(s: string, a: int64, t: string, b: int64)
    requires IsStamp(t) && IdOf(s, a) == IdOf(t, b)
    ensures |t| <= |s|
  {
    var id := IdOf(s, a);
    assert id[|s|] == '-';
    assert forall i :: 0 <= i < |t| ==> id[i] == t[i];
  }

  /** The process-wide id counter. */
  class IdSource {
    var counter: int64

    constructor ()
      ensures counter == 0
    {
      counter := 0;
    }

    method NewEntryID(stamp: string) returns (id: EntryID)
      modifies this
      ensures counter == Wrap64(old(counter) + 1)
      ensures id == IdOf(stamp, counter)
    {
      counter := Wrap64(counter + 1);
      id := IdOf(stamp, counter);
    }
  }

  /** Ids handed out by one process, given the second at which each was requested. */
  function IdRun(stamps: seq<string>): (ids: seq<EntryID>)
  {
    seq(|stamps|, i requires 0 <= i < |stamps| => IdOf(stamps[i], Wrap64(i + 1)))
  }

  /** The run the counter really produces: each call advances the shared counter by one. */
  method DrawIds(source: IdSource, stamps: seq<string>) returns (ids: seq<EntryID>)
    requires source.counter == 0
    modifies source
    ensures ids == IdRun(stamps)
  {
    hide Wrap64, IdOf;
    SmallWrap(0);
    ids := [];
    for k := 0 to |stamps|
      invariant source.counter == Wrap64(k)
      invariant ids == IdRun(stamps)[..k]
    {
      var id := source.NewEntryID(stamps[k]);
      Wrap64Add(k, 1);
      ids := ids + [id];
    }
  }

  /** Two ids of a run coincide exactly when the counter went all the way round within one second. */
  lemma IdRunCollision(stamps: seq<string>, i: nat, j: nat)
    requires forall k :: 0 <= k < |stamps| ==> IsStamp(stamps[k])
    requires i < j < |stamps|
    ensures IdRun(stamps)[i] == IdRun(stamps)[j] <==> stamps[i] == stamps[j] && (j - i) % TWO_64 == 0
  {
    IdInjective(stamps[i], Wrap64(i + 1), stamps[j], Wrap64(j + 1));
    Wrap64Equal(j + 1, i + 1);
  }

  /** Fewer than 2^64 ids: pairwise distinct, whatever the clock does. */
  lemma IdRunDistinct(stamps: seq<string>)
    requires forall k :: 0 <= k < |stamps| ==> IsStamp(stamps[k])
    requires |stamps| <= TWO_64
    ensures Distinct(IdRun(stamps))
  {
    forall i, j | 0 <= i < j < |stamps|
      ensures IdRun(stamps)[i] != IdRun(stamps)[j]
    {
      IdRunCollision(stamps, i, j);
    }
  }
}
