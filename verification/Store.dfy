/** The capture store as a value: a bounded queue with an id index and lifetime
    counters, its filtered paging, and theorems over whole runs of Push and Clear
    (internal/capture/store.go). */
module Store {
  import opened Basics
  import opened Entries

  datatype StoreVal = StoreVal(
    capacity: nat,
    queue: seq<Entry>,             // oldest first
    index: map<EntryID, Entry>,
    evictions: int64,              // lifetime counters, which wrap around
    bytesCaptured: int64)

  const DEFAULT_CAPACITY: nat := 10000

  function Empty(capacity: nat): (v: StoreVal) {
    StoreVal(capacity, [], map[], 0, 0)
  }

  function EvictOldest(v: StoreVal): (r: StoreVal)
    requires v.queue != []
  {
    v.(queue := v.queue[1..], index := v.index - {v.queue[0].id}, evictions := Wrap64(v.evictions + 1))
  }

  function MakeRoom(v: StoreVal): (r: StoreVal)
    requires 0 < v.capacity
  {
    if |v.queue| == v.capacity then EvictOldest(v) else v
  }

  function Append(v: StoreVal, e: Entry): (r: StoreVal) {
    v.(queue := v.queue + [e], index := v.index[e.id := e],
       bytesCaptured := Wrap64(v.bytesCaptured + EntryBytes(e)))
  }

  /** The locked part of Push on a finalized entry. */
  function Insert(v: StoreVal, e: Entry): (r: StoreVal)
    requires 0 < v.capacity
  {
    Append(MakeRoom(v), e)
  }

  /** Clear forgets the entries and the index; the lifetime counters stay. */
  function Cleared(v: StoreVal): (r: StoreVal) {
    v.(queue := [], index := map[])
  }

  function Lookup(v: StoreVal, id: EntryID): (r: Option<Entry>) {
    if id in v.index then Some(v.index[id]) else None
  }

  // ---- Whole runs -------------------------------------------------------

  datatype Op = Push(entry: Entry) | Clear

  function Apply(v: StoreVal, op: Op): (r: StoreVal)
    requires 0 < v.capacity
    ensures r.capacity == v.capacity
  {
    match op
    case Push(e) => Insert(v, e)
    case Clear => Cleared(v)
  }

  function Run(capacity: nat, ops: seq<Op>): (v: StoreVal)
    requires 0 < capacity
    ensures v.capacity == capacity
  {
    if ops == [] then Empty(capacity)
    else Apply(Run(capacity, ops[..|ops| - 1]), ops[|ops| - 1])
  }

  /** Entries pushed since the last Clear, oldest first, evicted ones included. */
  function SinceClear(ops: seq<Op>): (h: seq<Entry>) {
    if ops == [] || ops[|ops| - 1].Clear? then []
    else SinceClear(ops[..|ops| - 1]) + [ops[|ops| - 1].entry]
  }

  function LastN<T>(s: seq<T>, n: nat): (r: seq<T>) {
    if |s| <= n then s else s[|s| - n..]
  }

  function Pushes(ops: seq<Op>): (n: nat) {
    if ops == [] then 0
    else Pushes(ops[..|ops| - 1]) + if ops[|ops| - 1].Push? then 1 else 0
  }

  function PushedBytes(ops: seq<Op>): (n: nat) {
    if ops == [] then 0
    else PushedBytes(ops[..|ops| - 1]) +
         match ops[|ops| - 1] { case Push(e) => EntryBytes(e) case Clear => 0 }
  }

  /** How many entries all the Clears of a run threw away. */
  function Discarded(capacity: nat, ops: seq<Op>): (n: nat)
    requires 0 < capacity
  {
    if ops == [] then 0
    else
      var before := ops[..|ops| - 1];
      Discarded(capacity, before) + if ops[|ops| - 1].Clear? then |Run(capacity, before).queue| else 0
  }

  /** The store is the queue of the last `capacity` entries pushed since the last Clear. */
  lemma {:induction false} QueueIsLastPushes(capacity: nat, ops: seq<Op>)
    requires 0 < capacity
    ensures Run(capacity, ops).queue == LastN(SinceClear(ops), capacity)
  {
    hide EntryBytes;
    if ops == [] {
    } else {
      QueueIsLastPushes(capacity, ops[..|ops| - 1]);
      if ops[|ops| - 1].Push? {
        LastNStep(SinceClear(ops[..|ops| - 1]), ops[|ops| - 1].entry, capacity);
      }
    }
  }

  lemma LastNStep<T>(s: seq<T>, x: T, n: nat)
    requires 0 < n
    ensures var last := LastN(s, n); LastN(s + [x], n) == (if |last| == n then last[1..] else last) + [x]
  {
  }

  /** How many pushes of a run found the store full. */
  function Evicted(capacity: nat, ops: seq<Op>): (n: nat)
    requires 0 < capacity
  {
    if ops == [] then 0
    else
      var before := ops[..|ops| - 1];
      Evicted(capacity, before) +
      if ops[|ops| - 1].Push? && |Run(capacity, before).queue| == capacity then 1 else 0
  }

  /** No push is unaccounted for, and no body byte: every push is resident, was evicted or was discarded by
      a Clear; the counters hold these totals, up to their wrap-around, and Clear does not touch them. */
  lemma {:induction false} Conservation(capacity: nat, ops: seq<Op>)
    requires 0 < capacity
    ensures |Run(capacity, ops).queue| <= capacity
    ensures Pushes(ops) == |Run(capacity, ops).queue| + Evicted(capacity, ops) + Discarded(capacity, ops)
    ensures Run(capacity, ops).evictions == Wrap64(Evicted(capacity, ops))
    ensures Run(capacity, ops).bytesCaptured == Wrap64(PushedBytes(ops))
  {
    hide EntryBytes, Wrap64;
    if ops == [] {
      SmallWrap(0);
    } else {
      var before := ops[..|ops| - 1];
      Conservation(capacity, before);
      Wrap64Add(Evicted(capacity, before), 1);
      if ops[|ops| - 1].Push? {
        Wrap64Add(PushedBytes(before), EntryBytes(ops[|ops| - 1].entry));
      }
    }
  }

  // ---- The id index -----------------------------------------------------

  /** Position `p` of the push history holds the newest entry with this id. */
  ghost predicate Newest(h: seq<Entry>, id: EntryID, p: int) {
    0 <= p < |h| && h[p].id == id && forall q :: p < q < |h| ==> h[q].id != id
  }

  /** An older entry with the same id was still resident when position `p` was
      pushed, and has been evicted since. */
  ghost predicate Undermined(h: seq<Entry>, capacity: nat, id: EntryID, p: int) {
    exists q :: 0 <= q < |h| && p - capacity < q < p && q < |h| - capacity && h[q].id == id
  }

  /** Position `p` is what the index must give for this id. */
  ghost predicate Findable(h: seq<Entry>, capacity: nat, id: EntryID, p: int) {
    Newest(h, id, p) && |h| - capacity <= p && !Undermined(h, capacity, id, p)
  }

  /** The index of a store gives for this id what the history of its pushes asks for. */
  ghost predicate IndexAgrees(v: StoreVal, h: seq<Entry>, id: EntryID) {
    && (id in v.index <==> exists p :: Findable(h, v.capacity, id, p))
    && (forall p :: Findable(h, v.capacity, id, p) ==> Lookup(v, id) == Some(h[p]))
  }

  /** The index of every run, exactly: an id leads to its newest resident entry,
      except that evicting an older entry with the same id also unlinks the newer one. */
  lemma {:induction false} IndexExact(capacity: nat, ops: seq<Op>, id: EntryID)
    requires 0 < capacity
    ensures IndexAgrees(Run(capacity, ops), SinceClear(ops), id)
  {
    hide Findable, Insert, LastN;
    var v, h := Run(capacity, ops), SinceClear(ops);
    if ops == [] || ops[|ops| - 1].Clear? {
      NothingFindable(capacity, id);
      assert v.index == map[] && h == [];
    } else {
      var before, e := ops[..|ops| - 1], ops[|ops| - 1].entry;
      IndexExact(capacity, before, id);
      QueueIsLastPushes(capacity, before);
      var v', h' := Run(capacity, before), SinceClear(before);
      assert v == Insert(v', e) && h == h' + [e];
      if e.id == id {
        SameIdPushed(v', h', e);
      } else {
        OtherIdPushed(v', h', id, e);
      }
    }
  }

  lemma NothingFindable(capacity: nat, id: EntryID)
    ensures forall p :: !Findable([], capacity, id, p)
  {
  }

  /** A push makes its own id findable at once. */
  lemma SameIdPushed(v: StoreVal, h: seq<Entry>, e: Entry)
    requires 0 < v.capacity
    ensures IndexAgrees(Insert(v, e), h + [e], e.id)
  {
    hide EntryBytes;
    var h' := h + [e];
    assert h'[|h|] == e;
    assert Findable(h', v.capacity, e.id, |h|);
    forall p | Findable(h', v.capacity, e.id, p) ensures p == |h| {
      NewestUnique(h', e.id, p, |h|);
    }
  }

  /** A push of another id matters only if the entry evicted for it has this id. */
  lemma OtherIdPushed(v: StoreVal, h: seq<Entry>, id: EntryID, e: Entry)
    requires 0 < v.capacity && v.queue == LastN(h, v.capacity) && e.id != id && IndexAgrees(v, h, id)
    ensures IndexAgrees(Insert(v, e), h + [e], id)
  {
    hide EntryBytes, Findable;
    var evicted := |h| >= v.capacity && h[|h| - v.capacity].id == id;
    forall p ensures Findable(h + [e], v.capacity, id, p) <==> Findable(h, v.capacity, id, p) && !evicted {
      FindableStep(h, v.capacity, id, e, p);
    }
    assert |v.queue| == v.capacity ==> v.queue[0] == h[|h| - v.capacity];
    assert id in Insert(v, e).index <==> id in v.index && !evicted;
    assert forall p :: Findable(h, v.capacity, id, p) ==> 0 <= p < |h| by {
      forall p | Findable(h, v.capacity, id, p) ensures 0 <= p < |h| {
        FindableIsPosition(h, v.capacity, id, p);
      }
    }
  }

  lemma FindableIsPosition(h: seq<Entry>, capacity: nat, id: EntryID, p: int)
    requires Findable(h, capacity, id, p)
    ensures 0 <= p < |h|
  {
  }

  /** Pushing another id keeps a position findable unless the entry evicted for it has this id. */
  lemma FindableStep(h: seq<Entry>, capacity: nat, id: EntryID, e: Entry, p: int)
    requires 0 < capacity && e.id != id
    ensures Findable(h + [e], capacity, id, p) <==>
            Findable(h, capacity, id, p) && (|h| < capacity || h[|h| - capacity].id != id)
  {
    var h' := h + [e];
    assert forall q :: 0 <= q < |h| ==> h'[q] == h[q];
    assert Newest(h', id, p) <==> Newest(h, id, p) by {
      assert h'[|h|] == e;
    }
    if Newest(h, id, p) && |h| - capacity <= p && |h| >= capacity && h[|h| - capacity].id == id {
      var q := |h| - capacity;
      assert p != q ==> h'[q].id == id && p - capacity < q < p && q < |h'| - capacity;
    }
  }

  /** Every hit is an entry still in the store, carrying the id that was asked for. */
  lemma {:induction false} HitIsResident(capacity: nat, ops: seq<Op>, id: EntryID)
    requires 0 < capacity && id in Run(capacity, ops).index
    ensures Run(capacity, ops).index[id] in Run(capacity, ops).queue
    ensures Run(capacity, ops).index[id].id == id
  {
    IndexExact(capacity, ops, id);
    QueueIsLastPushes(capacity, ops);
    var h := SinceClear(ops);
    var p :| Findable(h, capacity, id, p);
    var queue := Run(capacity, ops).queue;
    assert queue[p - (|h| - |queue|)] == h[p];
  }

  /** Linear search, oldest first. */
  function Search(s: seq<Entry>, id: EntryID): (r: Option<Entry>) {
    if s == [] then None
    else if s[0].id == id then Some(s[0])
    else Search(s[1..], id)
  }

  lemma {:induction false} SearchFinds(s: seq<Entry>, id: EntryID, k: nat)
    requires k < |s| && s[k].id == id && forall i :: 0 <= i < k ==> s[i].id != id
    ensures Search(s, id) == Some(s[k])
  {
    if k == 0 {
    } else {
      SearchFinds(s[1..], id, k - 1);
    }
  }

  lemma {:induction false} SearchMisses(s: seq<Entry>, id: EntryID)
    requires forall i :: 0 <= i < |s| ==> s[i].id != id
    ensures Search(s, id) == None
  {
    if s == [] {
    } else {
      SearchMisses(s[1..], id);
    }
  }

  /** Position `q` holds the oldest resident entry with this id. */
  ghost predicate Oldest(h: seq<Entry>, capacity: nat, id: EntryID, q: int) {
    && 0 <= q < |h| && |h| - capacity <= q && h[q].id == id
    && forall i :: 0 <= i < q && |h| - capacity <= i ==> h[i].id != id
  }

  /** If the id is resident, its newest entry is still linked and its oldest is that same entry. */
  ghost predicate Unambiguous(h: seq<Entry>, capacity: nat, id: EntryID) {
    forall p, q :: Newest(h, id, p) && Oldest(h, capacity, id, q) ==>
                     h[p] == h[q] && !Undermined(h, capacity, id, p)
  }

  lemma {:induction false} FirstWith(s: seq<Entry>, id: EntryID, k: nat) returns (q: nat)
    requires k < |s| && s[k].id == id
    ensures q < |s| && s[q].id == id && forall i :: 0 <= i < q ==> s[i].id != id
  {
    if s[0].id == id {
      q := 0;
    } else {
      q := FirstWith(s[1..], id, k - 1);
      assert forall i :: 0 < i < q + 1 ==> s[i] == s[1..][i - 1];
      q := q + 1;
    }
  }

  lemma {:induction false} NewestExists(h: seq<Entry>, id: EntryID, k: nat) returns (p: nat)
    requires k < |h| && h[k].id == id
    ensures k <= p && Newest(h, id, p)
    decreases |h| - k
  {
    if j :| k < j < |h| && h[j].id == id {
      p := NewestExists(h, id, j);
    } else {
      p := k;
    }
  }

  /** Lookup through the index, exactly: it is the linear search if and only if the id is unambiguous. */
  lemma LookupExactly(capacity: nat, ops: seq<Op>, id: EntryID)
    requires 0 < capacity
    ensures Lookup(Run(capacity, ops), id) == Search(Run(capacity, ops).queue, id) <==>
            Unambiguous(SinceClear(ops), capacity, id)
  {
    hide Run, SinceClear, Search, LastN, Undermined;
    IndexExact(capacity, ops, id);
    QueueIsLastPushes(capacity, ops);
    var h, v := SinceClear(ops), Run(capacity, ops);
    if k :| 0 <= k < |v.queue| && v.queue[k].id == id {
      var p, q := ResidentRange(h, v.queue, capacity, id, k);
      forall p' | Newest(h, id, p') ensures p' == p {
        NewestUnique(h, id, p, p');
      }
      forall q' | Oldest(h, capacity, id, q') ensures q' == q {
        OldestUnique(h, capacity, id, q, q');
      }
      assert Findable(h, capacity, id, p) <==> !Undermined(h, capacity, id, p);
    } else {
      SearchMisses(v.queue, id);
      NotFindable(h, v.queue, capacity, id);
    }
  }

  lemma NewestUnique(h: seq<Entry>, id: EntryID, p: int, p': int)
    requires Newest(h, id, p) && Newest(h, id, p')
    ensures p == p'
  {
  }

  lemma OldestUnique(h: seq<Entry>, capacity: nat, id: EntryID, q: int, q': int)
    requires Oldest(h, capacity, id, q) && Oldest(h, capacity, id, q')
    ensures q == q'
  {
  }

  /** A resident id has a newest and an oldest position, and a search finds the oldest. */
  lemma ResidentRange(h: seq<Entry>, queue: seq<Entry>, capacity: nat, id: EntryID, k: nat) returns (p: nat, q: nat)
    requires queue == LastN(h, capacity) && k < |queue| && queue[k].id == id
    ensures Newest(h, id, p) && Oldest(h, capacity, id, q) && q <= p && Search(queue, id) == Some(h[q])
  {
    hide Search, LastN, Newest;
    Window(h, capacity);
    var base := |h| - |queue|;
    var i := FirstWith(queue, id, k);
    q := base + i;
    SearchFinds(queue, id, i);
    forall j | 0 <= j < q && |h| - capacity <= j ensures h[j].id != id {
      assert h[j] == queue[j - base];
    }
    p := NewestExists(h, id, q);
  }

  /** The last n elements, position by position. */
  lemma Window<T>(s: seq<T>, n: nat)
    ensures var r := LastN(s, n);
            && |r| == (if |s| < n then |s| else n)
            && forall j :: |s| - |r| <= j < |s| ==> s[j] == r[j - (|s| - |r|)]
  {
  }

  lemma NotFindable(h: seq<Entry>, queue: seq<Entry>, capacity: nat, id: EntryID)
    requires queue == LastN(h, capacity) && forall i :: 0 <= i < |queue| ==> queue[i].id != id
    ensures forall p :: !Findable(h, capacity, id, p) && !Oldest(h, capacity, id, p)
  {
    forall p ensures !Findable(h, capacity, id, p) && !Oldest(h, capacity, id, p) {
      if 0 <= p < |h| && |h| - capacity <= p {
        assert h[p] == queue[p - (|h| - |queue|)];
      }
    }
  }

  /** A resident entry with this id was pushed while another one with it was resident. */
  ghost predicate Clash(h: seq<Entry>, capacity: nat, id: EntryID) {
    exists q, p :: 0 <= q < p < |h| && p - q < capacity && |h| - capacity <= p && h[q].id == h[p].id == id
  }

  /** For distinct entries that means: the index fails for an id exactly when it clashed. */
  lemma LookupFailsOnClash(capacity: nat, ops: seq<Op>, id: EntryID)
    requires 0 < capacity
    ensures !Clash(SinceClear(ops), capacity, id) ==>
              Lookup(Run(capacity, ops), id) == Search(Run(capacity, ops).queue, id)
    ensures Distinct(SinceClear(ops)) ==>
              (Lookup(Run(capacity, ops), id) == Search(Run(capacity, ops).queue, id) <==>
               !Clash(SinceClear(ops), capacity, id))
  {
    hide Run, SinceClear, Search, Lookup;
    LookupExactly(capacity, ops, id);
    var h := SinceClear(ops);
    if Clash(h, capacity, id) {
      if Distinct(h) {
        ClashIsAmbiguous(h, capacity, id);
      }
    } else {
      NoClashIsUnambiguous(h, capacity, id);
    }
  }

  lemma NoClashIsUnambiguous(h: seq<Entry>, capacity: nat, id: EntryID)
    requires !Clash(h, capacity, id)
    ensures Unambiguous(h, capacity, id)
  {
    forall p, q | Newest(h, id, p) && Oldest(h, capacity, id, q)
      ensures p == q && !Undermined(h, capacity, id, p)
    {
      assert q <= p;
    }
  }

  lemma ClashIsAmbiguous(h: seq<Entry>, capacity: nat, id: EntryID)
    requires Distinct(h) && Clash(h, capacity, id)
    ensures !Unambiguous(h, capacity, id)
  {
    hide Unambiguous, Newest, Oldest, LastN, Search;
    var q, p :| 0 <= q < p < |h| && p - q < capacity && |h| - capacity <= p && h[q].id == h[p].id == id;
    var queue := LastN(h, capacity);
    Window(h, capacity);
    var base := |h| - |queue|;
    var last, first := ResidentRange(h, queue, capacity, id, p - base);
    RangeBounds(h, capacity, id, last, first, p);
    if last == first {
      RangeBounds(h, capacity, id, last, first, if q < |h| - capacity then p else q);
      assert Undermined(h, capacity, id, p);
    }
    AmbiguousWitness(h, capacity, id, last, first);
  }

  /** Every resident position with this id lies between the oldest and the newest. */
  lemma RangeBounds(h: seq<Entry>, capacity: nat, id: EntryID, last: int, first: int, p: int)
    requires Newest(h, id, last) && Oldest(h, capacity, id, first)
    requires 0 <= p < |h| && |h| - capacity <= p && h[p].id == id
    ensures 0 <= first <= p <= last < |h|
  {
  }

  lemma AmbiguousWitness(h: seq<Entry>, capacity: nat, id: EntryID, p: nat, q: nat)
    requires Newest(h, id, p) && Oldest(h, capacity, id, q)
    requires h[p] != h[q] || Undermined(h, capacity, id, p)
    ensures !Unambiguous(h, capacity, id)
  {
  }

  /** It does fail: evicting a also unlinks b, which carries the same id and is still in the store. */
  lemma ResidentCanBeLost(a: Entry, b: Entry, c: Entry)
    requires a.id == b.id != c.id
    ensures var v := Run(2, [Push(a), Push(b), Push(c)]);
            v.queue == [b, c] && Lookup(v, b.id) == None && Search(v.queue, b.id) == Some(b)
  {
    hide EntryBytes;
    var ops := [Push(a), Push(b), Push(c)];
    var v1 := Insert(Empty(2), a);
    var v2 := Insert(v1, b);
    assert Run(2, ops[..0]) == Empty(2);
    assert Run(2, ops[..1]) == v1 by { assert ops[..1][..0] == ops[..0]; }
    assert Run(2, ops[..2]) == v2 by { assert ops[..2][..1] == ops[..1]; }
    assert v2.queue == [a, b];
    assert ops[..|ops| - 1] == ops[..2];
  }

  /** No entry is pushed with the id of one that is still resident. */
  ghost predicate NoResidentClash(h: seq<Entry>, capacity: nat) {
    forall q, p :: 0 <= q < p < |h| && p - q < capacity ==> h[q].id != h[p].id
  }

  /** Without such clashes the index is a faithful shortcut for searching the queue. */
  lemma LookupIsSearch(capacity: nat, ops: seq<Op>, id: EntryID)
    requires 0 < capacity && NoResidentClash(SinceClear(ops), capacity)
    ensures Lookup(Run(capacity, ops), id) == Search(Run(capacity, ops).queue, id)
  {
    LookupFailsOnClash(capacity, ops, id);
  }

  lemma {:induction false} SinceClearFromPushes(ops: seq<Op>, i: nat)
    requires i < |SinceClear(ops)|
    ensures |SinceClear(ops)| <= |ops|
    ensures ops[|ops| - |SinceClear(ops)| + i] == Push(SinceClear(ops)[i])
  {
    var n := |SinceClear(ops)| - 1;
    var before := ops[..|ops| - 1];
    if n == 0 {
    } else {
      SinceClearFromPushes(before, if i < n then i else 0);
    }
  }

  /** Ids drawn from one counter never clash, in whatever order concurrent pushes land:
      push number k carries draw number draws[k], and every run the proxy makes qualifies. */
  lemma ProxyRunLookup(capacity: nat, ops: seq<Op>, stamps: seq<string>, draws: seq<nat>, id: EntryID)
    requires 0 < capacity && |stamps| <= TWO_64
    requires forall k :: 0 <= k < |stamps| ==> IsStamp(stamps[k])
    requires |draws| == |ops| && Distinct(draws) && forall k :: 0 <= k < |draws| ==> draws[k] < |stamps|
    requires forall k :: 0 <= k < |ops| && ops[k].Push? ==> ops[k].entry.id == IdRun(stamps)[draws[k]]
    ensures Lookup(Run(capacity, ops), id) == Search(Run(capacity, ops).queue, id)
  {
    var h := SinceClear(ops);
    IdRunDistinct(stamps);
    forall q, p | 0 <= q < p < |h| && p - q < capacity ensures h[q].id != h[p].id {
      SinceClearFromPushes(ops, q);
      SinceClearFromPushes(ops, p);
      assert draws[|ops| - |h| + q] != draws[|ops| - |h| + p];
    }
    LookupIsSearch(capacity, ops, id);
  }

  // ---- Listing ----------------------------------------------------------

  datatype ListOpts = ListOpts(since: int, verb: string, status: int, url: string, limit: int, offset: int)

  const ALL: ListOpts := ListOpts(ZERO_TIME, "", 0, "", 0, 0)

  predicate Matches(opts: ListOpts, e: Entry) {
    && !(opts.since != ZERO_TIME && e.timestamp < opts.since)
    && !(opts.verb != "" && e.verb != opts.verb)
    && !(opts.status > 0 && e.statusCode != opts.status)
    && !(opts.url != "" && e.url != opts.url)
  }

  /** The entries that satisfy the filters, in order. */
  function Filter(s: seq<Entry>, opts: ListOpts): (r: seq<Entry>) {
    if s == [] then []
    else
      var last := s[|s| - 1];
      Filter(s[..|s| - 1], opts) + if Matches(opts, last) then [last] else []
  }

  function CapResult(s: seq<Entry>, limit: int): (r: seq<Entry>) {
    if 0 < limit < |s| then s[..limit] else s
  }

  function Paginate(s: seq<Entry>, opts: ListOpts): (r: seq<Entry>) {
    if opts.offset > 0 then
      if opts.offset >= |s| then [] else CapResult(s[opts.offset..], opts.limit)
    else CapResult(s, opts.limit)
  }

  function List(v: StoreVal, opts: ListOpts): (r: seq<Entry>) {
    if v.queue == [] then [] else Paginate(Filter(v.queue, opts), opts)
  }

  /** An unset filter passes everything; a set one passes exactly the entries that agree with it. */
  lemma {:induction false} FilterExactly(s: seq<Entry>, opts: ListOpts, e: Entry)
    ensures e in Filter(s, opts) <==>
            && e in s
            && (opts.since == ZERO_TIME || opts.since <= e.timestamp)
            && (opts.verb in ["", e.verb])
            && (opts.status <= 0 || opts.status == e.statusCode)
            && (opts.url in ["", e.url])
  {
    if s == [] {
    } else {
      FilterExactly(s[..|s| - 1], opts, e);
      assert e in s <==> e in s[..|s| - 1] || e == s[|s| - 1];
    }
  }

  /** Filters are independent: applying all four is applying two and then the other two. */
  lemma {:induction false} FiltersCompose(s: seq<Entry>, opts: ListOpts)
    ensures Filter(s, opts) ==
            Filter(Filter(s, opts.(status := 0, url := "")), opts.(since := ZERO_TIME, verb := ""))
  {
    if s == [] {
    } else {
      var first := opts.(status := 0, url := "");
      var all, last := Filter(s[..|s| - 1], first), s[|s| - 1];
      FiltersCompose(s[..|s| - 1], opts);
      assert (all + [last])[..|all|] == all && all + [] == all;
    }
  }

  lemma FilterOne(s: seq<Entry>, e: Entry, opts: ListOpts)
    ensures Filter(s + [e], opts) == if Matches(opts, e) then Filter(s, opts) + [e] else Filter(s, opts)
  {
    assert (s + [e])[..|s|] == s;
    assert Filter(s, opts) + [] == Filter(s, opts);
  }

  /** Filtering keeps the order: it works entry by entry, and keeps an entry or leaves it out. */
  lemma {:induction false} FilterByEntry(s: seq<Entry>, t: seq<Entry>, opts: ListOpts)
    ensures Filter(s + t, opts) == Filter(s, opts) + Filter(t, opts)
    ensures |t| == 1 ==> Filter(t, opts) == if Matches(opts, t[0]) then t else []
  {
    if |t| == 1 {
      FilterSingle(t[0], opts);
      assert t == [t[0]];
    }
    hide Filter;
    if t == [] {
      FilterNone(s, opts);
    } else {
      FilterByEntry(s, t[..|t| - 1], opts);
      FilterLonger(s, t[..|t| - 1], t[|t| - 1], opts);
      assert t == t[..|t| - 1] + [t[|t| - 1]];
    }
  }

  lemma FilterLonger(s: seq<Entry>, front: seq<Entry>, last: Entry, opts: ListOpts)
    requires Filter(s + front, opts) == Filter(s, opts) + Filter(front, opts)
    ensures Filter(s + (front + [last]), opts) == Filter(s, opts) + Filter(front + [last], opts)
  {
    hide Filter, Matches;
    FilterOne(s + front, last, opts);
    FilterOne(front, last, opts);
    assert s + (front + [last]) == s + front + [last];
  }

  lemma FilterSingle(e: Entry, opts: ListOpts)
    ensures Filter([e], opts) == if Matches(opts, e) then [e] else []
  {
    FilterOne([], e, opts);
    assert [] + [e] == [e];
  }

  lemma FilterNone(s: seq<Entry>, opts: ListOpts)
    ensures Filter(s + [], opts) == Filter(s, opts) + Filter([], opts)
  {
    assert s + [] == s;
  }

  lemma {:induction false} FilterAll(s: seq<Entry>, opts: ListOpts)
    requires forall e :: e in s ==> Matches(opts, e)
    ensures Filter(s, opts) == s
  {
    if s == [] {
    } else {
      FilterAll(s[..|s| - 1], opts);
    }
  }

  /** A position clamped to 0..n. */
  function Clamp(i: int, n: nat): (k: nat)
    ensures k <= n
  {
    if i < 0 then 0 else if i > n then n else i
  }

  /** Listing, for all options: the matches from the offset on, as many as the limit allows; no offset and
      no limit if these are not positive, and nothing past the end. */
  lemma ListExactly(v: StoreVal, opts: ListOpts)
    ensures var all := Filter(v.queue, opts);
            var lo := Clamp(opts.offset, |all|);
            var hi := if opts.limit > 0 then Clamp(lo + opts.limit, |all|) else |all|;
            lo <= hi && List(v, opts) == all[lo..hi]
  {
  }

  /** Page number `i` of size `k`. */
  function Page(v: StoreVal, filters: ListOpts, k: nat, i: nat): (r: seq<Entry>) {
    List(v, filters.(limit := k, offset := i * k))
  }

  function Pages(v: StoreVal, filters: ListOpts, k: nat, m: nat): (r: seq<Entry>) {
    if m == 0 then [] else Pages(v, filters, k, m - 1) + Page(v, filters, k, m - 1)
  }

  /** Filtering looks at the filters only, not at the page asked for. */
  lemma {:induction false} FilterIgnoresPage(s: seq<Entry>, opts: ListOpts, limit: int, offset: int)
    ensures Filter(s, opts.(limit := limit, offset := offset)) == Filter(s, opts)
  {
    if s == [] {
    } else {
      FilterIgnoresPage(s[..|s| - 1], opts, limit, offset);
    }
  }

  lemma PageIsSlice(v: StoreVal, filters: ListOpts, k: nat, i: nat)
    requires 0 < k
    ensures var all := Filter(v.queue, filters);
            Page(v, filters, k, i) ==
            if i * k >= |all| then [] else all[i * k .. if i * k + k < |all| then i * k + k else |all|]
  {
    FilterIgnoresPage(v.queue, filters, k, i * k);
  }

  /** The first m pages are the first m*k matches: nothing is skipped or repeated at a page
      boundary, and past the end every page is empty. */
  lemma {:induction false} PagesConcatenate(v: StoreVal, filters: ListOpts, k: nat, m: nat)
    requires 0 < k
    ensures var all := Filter(v.queue, filters);
            Pages(v, filters, k, m) == if m * k < |all| then all[..m * k] else all
    ensures m * k >= |Filter(v.queue, filters)| ==> Page(v, filters, k, m) == []
  {
    hide Page, Filter;
    PageIsSlice(v, filters, k, m);
    if m == 0 {
    } else {
      PagesConcatenate(v, filters, k, m - 1);
      PageIsSlice(v, filters, k, m - 1);
      assert m * k == (m - 1) * k + k;
      NextSlice(Filter(v.queue, filters), (m - 1) * k, k);
    }
  }

  /** The first `from` elements and the next k are the first from+k. */
  lemma NextSlice<T>(all: seq<T>, from: nat, k: nat)
    ensures (if from < |all| then all[..from] else all) +
            (if from >= |all| then [] else all[from..if from + k < |all| then from + k else |all|]) ==
            if from + k < |all| then all[..from + k] else all
  {
  }

  // ---- Backfill ---------------------------------------------------------

  /** What a new stream client is sent before live events. */
  function Backfill(v: StoreVal, n: int): (r: seq<Entry>) {
    if n <= 0 then [] else List(v, ALL.(limit := n))
  }

  /** Backfill sends the oldest n entries, not the newest. */
  lemma BackfillIsOldest(v: StoreVal, n: int)
    ensures Backfill(v, n) == if n <= 0 then [] else if n < |v.queue| then v.queue[..n] else v.queue
  {
    FilterAll(v.queue, ALL.(limit := n));
  }

  lemma BackfillAt(v: StoreVal, n: int, k: nat)
    requires k < |Backfill(v, n)|
    ensures k < |v.queue| && Backfill(v, n)[k] == v.queue[k]
  {
    BackfillIsOldest(v, n);
  }

  /** The documented "most recent N" is what is sent exactly when the whole store fits in N
      (or backfill is off). */
  lemma BackfillIsMostRecent(v: StoreVal, n: nat)
    requires Distinct(v.queue)
    ensures Backfill(v, n) == LastN(v.queue, n) <==> n == 0 || n >= |v.queue|
  {
    BackfillIsOldest(v, n);
    if 0 < n < |v.queue| {
      assert v.queue[..n][0] == v.queue[0] && LastN(v.queue, n)[0] == v.queue[|v.queue| - n];
    }
  }
}
