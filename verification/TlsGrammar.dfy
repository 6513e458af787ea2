/** The wire format the peeker is meant to read, stated independently of its offset walk:
    the record of section 5.1 of RFC 8446, the handshake header and ClientHello of sections
    4 and 4.1.2 of RFC 8446, and the server_name extension of section 3 of RFC 6066.
    The peeker is proved equal to this grammar on every byte string, inverse to the
    encoder, and stable under truncation. */
module TlsGrammar {
  import opened Basics
  import opened Sni

  function U16Bytes(n: nat): (b: bytes)
    requires n < 0x10000
    ensures |b| == 2 && U16(b, 0) == n
  {
    [n / 256, n % 256]
  }

  function U24Bytes(n: nat): (b: bytes)
    requires n < 0x100_0000
    ensures |b| == 3
  {
    [n / 65536, n / 256 % 256, n % 256]
  }

  lemma U16Slice(data: bytes, i: nat)
    requires i + 2 <= |data|
    ensures U16Bytes(U16(data, i)) == data[i..i + 2]
  {
  }

  // ---- ServerNameList ----------------------------------------------------

  datatype Name = Name(kind: byte, name: bytes)

  ghost predicate NamesFit(xs: seq<Name>) {
    forall i :: 0 <= i < |xs| ==> |xs[i].name| < 0x10000
  }

  function EncodeName(x: Name): (b: bytes)
    requires |x.name| < 0x10000
  {
    [x.kind] + U16Bytes(|x.name|) + x.name
  }

  function EncodeNames(xs: seq<Name>): (b: bytes)
    requires NamesFit(xs)
  {
    if xs == [] then [] else EncodeName(xs[0]) + EncodeNames(xs[1..])
  }

  /** Bytes that do not begin with a whole name entry. */
  predicate NameCutShort(rest: bytes) {
    |rest| < 3 || 3 + U16(rest, 1) > |rest|
  }

  /** `list` is these name entries followed by an incomplete one or nothing. */
  ghost predicate IsNameList(list: bytes, xs: seq<Name>) {
    NamesFit(xs) && exists rest :: list == EncodeNames(xs) + rest && NameCutShort(rest)
  }

  /** The first host_name entry that is not empty. */
  function FirstName(xs: seq<Name>): (host: bytes) {
    if xs == [] then []
    else if xs[0].kind == 0 && xs[0].name != [] then xs[0].name
    else FirstName(xs[1..])
  }

  lemma NameHead(x: Name, tail: bytes)
    requires |x.name| < 0x10000
    ensures var d, end := EncodeName(x) + tail, 3 + |x.name|;
            |d| >= end && d[0] == x.kind && U16(d, 1) == |x.name| && d[3..end] == x.name && d[end..] == tail
  {
    var d := EncodeName(x) + tail;
    assert d[1] == U16Bytes(|x.name|)[0] && d[2] == U16Bytes(|x.name|)[1];
  }

  lemma NamesCons(xs: seq<Name>, rest: bytes)
    requires NamesFit(xs) && xs != []
    ensures EncodeNames(xs) + rest == EncodeName(xs[0]) + (EncodeNames(xs[1..]) + rest)
  {
    hide EncodeName;
  }

  /** Reading an item at an offset of a larger message. */
  lemma NameInPlace(data: bytes, offset: nat, end: nat, x: Name, tail: bytes)
    requires |x.name| < 0x10000 && offset <= end <= |data| && data[offset..end] == EncodeName(x) + tail
    ensures var next := offset + 3 + |x.name|;
            && next <= end && data[offset] == x.kind && U16(data, offset + 1) == |x.name|
            && data[offset + 3..next] == x.name && data[next..end] == tail
  {
    NameHead(x, tail);
    var d := data[offset..end];
    assert data[offset] == d[0] && data[offset + 1] == d[1] && data[offset + 2] == d[2];
    SliceOfSlice(data, offset, end, 3, 3 + |x.name|);
    SliceOfSlice(data, offset, end, 3 + |x.name|, end - offset);
  }

  /** One turn of the walk over a name entry whose bytes are all there. */
  lemma NameStep(data: bytes, offset: nat, end: nat, x: Name)
    requires offset + 3 + |x.name| <= end <= |data| && data[offset] == x.kind
    requires U16(data, offset + 1) == |x.name| && data[offset + 3..offset + 3 + |x.name|] == x.name
    ensures WalkNames(data, offset, end) ==
            if x.kind == 0 && x.name != [] then x.name else WalkNames(data, offset + 3 + |x.name|, end)
  {
  }

  lemma {:induction false} NamesGrammar(data: bytes, offset: nat, end: nat, xs: seq<Name>, rest: bytes)
    requires offset <= end <= |data| && NamesFit(xs) && NameCutShort(rest)
    requires data[offset..end] == EncodeNames(xs) + rest
    ensures WalkNames(data, offset, end) == FirstName(xs)
    decreases |xs|
  {
    hide WalkNames, EncodeName, NameCutShort;
    if xs == [] {
      assert data[offset..end] == rest;
      CutShortNameEnds(data, offset, end);
    } else {
      var tail := EncodeNames(xs[1..]) + rest;
      NamesCons(xs, rest);
      NameInPlace(data, offset, end, xs[0], tail);
      NameStep(data, offset, end, xs[0]);
      NamesGrammar(data, offset + 3 + |xs[0].name|, end, xs[1..], rest);
    }
  }

  lemma CutShortNameEnds(data: bytes, offset: nat, end: nat)
    requires offset <= end <= |data| && NameCutShort(data[offset..end])
    ensures WalkNames(data, offset, end) == []
  {
    if offset + 3 <= end {
      assert U16(data[offset..end], 1) == U16(data, offset + 1);
    }
  }

  /** Every byte string is a name list, */
  function SplitNames(list: bytes): (xs: seq<Name>) {
    if NameCutShort(list) then []
    else
      var end := 3 + U16(list, 1);
      [Name(list[0], list[3..end])] + SplitNames(list[end..])
  }

  lemma NameListCons(x: Name, tail: bytes, xs: seq<Name>)
    requires |x.name| < 0x10000 && IsNameList(tail, xs)
    ensures IsNameList(EncodeName(x) + tail, [x] + xs)
  {
    var rest :| tail == EncodeNames(xs) + rest && NameCutShort(rest);
    assert ([x] + xs)[1..] == xs;
    assert EncodeName(x) + tail == EncodeNames([x] + xs) + rest;
  }

  lemma NameRebuilds(list: bytes)
    requires !NameCutShort(list)
    ensures var end := 3 + U16(list, 1);
            list == EncodeName(Name(list[0], list[3..end])) + list[end..]
  {
    var end := 3 + U16(list, 1);
    U16Slice(list, 1);
    assert list == list[..1] + list[1..3] + list[3..end] + list[end..];
  }

  lemma {:induction false} SplitNamesIsNameList(list: bytes)
    ensures IsNameList(list, SplitNames(list))
  {
    if NameCutShort(list) {
      assert list == EncodeNames([]) + list;
    } else {
      var end := 3 + U16(list, 1);
      NameRebuilds(list);
      SplitNamesIsNameList(list[end..]);
      NameListCons(Name(list[0], list[3..end]), list[end..], SplitNames(list[end..]));
    }
  }

  /** and in only one way. */
  lemma {:induction false} NameListIsUnique(xs: seq<Name>, rest: bytes)
    requires NamesFit(xs) && NameCutShort(rest)
    ensures SplitNames(EncodeNames(xs) + rest) == xs
  {
    if xs == [] {
      assert EncodeNames(xs) + rest == rest;
    } else {
      var tail := EncodeNames(xs[1..]) + rest;
      NamesCons(xs, rest);
      NameHead(xs[0], tail);
      NameListIsUnique(xs[1..], rest);
    }
  }

  // ---- Extension block ---------------------------------------------------

  datatype Ext = Ext(kind: nat, payload: bytes)

  ghost predicate ExtsFit(xs: seq<Ext>) {
    forall i :: 0 <= i < |xs| ==> xs[i].kind < 0x10000 && |xs[i].payload| < 0x10000
  }

  function EncodeExt(x: Ext): (b: bytes)
    requires x.kind < 0x10000 && |x.payload| < 0x10000
  {
    U16Bytes(x.kind) + U16Bytes(|x.payload|) + x.payload
  }

  function EncodeExts(xs: seq<Ext>): (b: bytes)
    requires ExtsFit(xs)
  {
    if xs == [] then [] else EncodeExt(xs[0]) + EncodeExts(xs[1..])
  }

  /** Bytes that do not begin with a whole extension. */
  predicate ExtCutShort(rest: bytes) {
    |rest| < 4 || 4 + U16(rest, 2) > |rest|
  }

  /** `block` is these extensions followed by an incomplete one or nothing. */
  ghost predicate IsExtBlock(block: bytes, xs: seq<Ext>) {
    ExtsFit(xs) && exists rest :: block == EncodeExts(xs) + rest && ExtCutShort(rest)
  }

  /** The name list inside a server_name payload, cut off at the payload's end. */
  function NameListOf(payload: bytes): (list: bytes)
    requires 2 <= |payload|
  {
    payload[2..Min(2 + U16(payload, 0), |payload|)]
  }

  /** The host name a single extension announces: only server_name (type 0) does. */
  function HostOf(x: Ext): (host: bytes) {
    if x.kind != 0 || |x.payload| < 2 then [] else FirstName(SplitNames(NameListOf(x.payload)))
  }

  function FirstHost(xs: seq<Ext>): (host: bytes) {
    if xs == [] then [] else if HostOf(xs[0]) != [] then HostOf(xs[0]) else FirstHost(xs[1..])
  }

  lemma NamesWalkIsGrammar(data: bytes, offset: nat, end: nat)
    requires offset <= end <= |data|
    ensures WalkNames(data, offset, end) == FirstName(SplitNames(data[offset..end]))
  {
    var list := data[offset..end];
    SplitNamesIsNameList(list);
    var rest :| list == EncodeNames(SplitNames(list)) + rest && NameCutShort(rest);
    NamesGrammar(data, offset, end, SplitNames(list), rest);
  }

  lemma NameListInPlace(data: bytes, offset: nat, len: nat)
    requires 2 <= len && offset + len <= |data|
    ensures NameListOf(data[offset..offset + len]) == data[offset + 2..NameListEnd(data, offset, len)]
  {
    assert U16(data[offset..offset + len], 0) == U16(data, offset);
    SliceOfSlice(data, offset, offset + len, 2, NameListEnd(data, offset, len) - offset);
  }

  lemma PayloadGrammar(data: bytes, offset: nat, len: nat)
    requires offset + len <= |data|
    ensures HostAt(data, offset, len) == HostOf(Ext(0, data[offset..offset + len]))
  {
    if len >= 2 {
      NameListInPlace(data, offset, len);
      NamesWalkIsGrammar(data, offset + 2, NameListEnd(data, offset, len));
    }
  }

  lemma ExtHead(x: Ext, tail: bytes)
    requires x.kind < 0x10000 && |x.payload| < 0x10000
    ensures var d, end := EncodeExt(x) + tail, 4 + |x.payload|;
            && |d| >= end && U16(d, 0) == x.kind && U16(d, 2) == |x.payload|
            && d[4..end] == x.payload && d[end..] == tail
  {
    var d := EncodeExt(x) + tail;
    assert d[0] == U16Bytes(x.kind)[0] && d[1] == U16Bytes(x.kind)[1];
    assert d[2] == U16Bytes(|x.payload|)[0] && d[3] == U16Bytes(|x.payload|)[1];
  }

  lemma ExtsCons(xs: seq<Ext>, rest: bytes)
    requires ExtsFit(xs) && xs != []
    ensures EncodeExts(xs) + rest == EncodeExt(xs[0]) + (EncodeExts(xs[1..]) + rest)
  {
    hide EncodeExt;
  }

  lemma ExtInPlace(data: bytes, offset: nat, end: nat, x: Ext, tail: bytes)
    requires x.kind < 0x10000 && |x.payload| < 0x10000
    requires offset <= end <= |data| && data[offset..end] == EncodeExt(x) + tail
    ensures var next := offset + 4 + |x.payload|;
            && next <= end && U16(data, offset) == x.kind && U16(data, offset + 2) == |x.payload|
            && data[offset + 4..next] == x.payload && data[next..end] == tail
  {
    ExtHead(x, tail);
    var d := data[offset..end];
    assert data[offset] == d[0] && data[offset + 1] == d[1] && data[offset + 2] == d[2] && data[offset + 3] == d[3];
    SliceOfSlice(data, offset, end, 4, 4 + |x.payload|);
    SliceOfSlice(data, offset, end, 4 + |x.payload|, end - offset);
  }

  /** One turn of the walk over an extension whose bytes are all there. */
  lemma ExtStep(data: bytes, offset: nat, end: nat, x: Ext)
    requires offset + 4 + |x.payload| <= end <= |data| && U16(data, offset) == x.kind
    requires U16(data, offset + 2) == |x.payload| && data[offset + 4..offset + 4 + |x.payload|] == x.payload
    ensures WalkExtensions(data, offset, end) ==
            if HostOf(x) != [] then HostOf(x) else WalkExtensions(data, offset + 4 + |x.payload|, end)
  {
    hide HostAt, SplitNames, FirstName;
    PayloadGrammar(data, offset + 4, |x.payload|);
  }

  lemma {:induction false} ExtsGrammar(data: bytes, offset: nat, end: nat, xs: seq<Ext>, rest: bytes)
    requires offset <= end <= |data| && ExtsFit(xs) && ExtCutShort(rest)
    requires data[offset..end] == EncodeExts(xs) + rest
    ensures WalkExtensions(data, offset, end) == FirstHost(xs)
    decreases |xs|
  {
    hide HostAt, WalkExtensions, HostOf, EncodeExt, ExtCutShort;
    if xs == [] {
      assert data[offset..end] == rest;
      CutShortExtEnds(data, offset, end);
    } else {
      var tail := EncodeExts(xs[1..]) + rest;
      ExtsCons(xs, rest);
      ExtInPlace(data, offset, end, xs[0], tail);
      ExtStep(data, offset, end, xs[0]);
      ExtsGrammar(data, offset + 4 + |xs[0].payload|, end, xs[1..], rest);
    }
  }

  lemma CutShortExtEnds(data: bytes, offset: nat, end: nat)
    requires offset <= end <= |data| && ExtCutShort(data[offset..end])
    ensures WalkExtensions(data, offset, end) == []
  {
    if offset + 4 <= end {
      assert U16(data[offset..end], 2) == U16(data, offset + 2);
    }
  }

  function SplitExts(block: bytes): (xs: seq<Ext>) {
    if ExtCutShort(block) then []
    else
      var end := 4 + U16(block, 2);
      [Ext(U16(block, 0), block[4..end])] + SplitExts(block[end..])
  }

  lemma ExtBlockCons(x: Ext, tail: bytes, xs: seq<Ext>)
    requires x.kind < 0x10000 && |x.payload| < 0x10000 && IsExtBlock(tail, xs)
    ensures IsExtBlock(EncodeExt(x) + tail, [x] + xs)
  {
    var rest :| tail == EncodeExts(xs) + rest && ExtCutShort(rest);
    assert ([x] + xs)[1..] == xs;
    assert EncodeExt(x) + tail == EncodeExts([x] + xs) + rest;
  }

  lemma ExtRebuilds(block: bytes)
    requires !ExtCutShort(block)
    ensures var end := 4 + U16(block, 2);
            block == EncodeExt(Ext(U16(block, 0), block[4..end])) + block[end..]
  {
    var end := 4 + U16(block, 2);
    U16Slice(block, 0);
    U16Slice(block, 2);
    assert block == block[..2] + block[2..4] + block[4..end] + block[end..];
  }

  /** Every byte string is an extension block, */
  lemma {:induction false} SplitExtsIsExtBlock(block: bytes)
    ensures IsExtBlock(block, SplitExts(block))
  {
    if ExtCutShort(block) {
      assert block == EncodeExts([]) + block;
    } else {
      var end := 4 + U16(block, 2);
      ExtRebuilds(block);
      SplitExtsIsExtBlock(block[end..]);
      ExtBlockCons(Ext(U16(block, 0), block[4..end]), block[end..], SplitExts(block[end..]));
    }
  }

  /** and in only one way. */
  lemma {:induction false} ExtBlockIsUnique(xs: seq<Ext>, rest: bytes)
    requires ExtsFit(xs) && ExtCutShort(rest)
    ensures SplitExts(EncodeExts(xs) + rest) == xs
  {
    if xs == [] {
      assert EncodeExts(xs) + rest == rest;
    } else {
      var tail := EncodeExts(xs[1..]) + rest;
      ExtsCons(xs, rest);
      ExtHead(xs[0], tail);
      ExtBlockIsUnique(xs[1..], rest);
    }
  }

  /** The two directions together. */
  lemma ExtBlockExactly(block: bytes, xs: seq<Ext>)
    ensures IsExtBlock(block, xs) <==> xs == SplitExts(block)
  {
    SplitExtsIsExtBlock(block);
    if IsExtBlock(block, xs) {
      var rest :| block == EncodeExts(xs) + rest && ExtCutShort(rest);
      ExtBlockIsUnique(xs, rest);
    }
  }

  lemma NameListExactly(list: bytes, xs: seq<Name>)
    ensures IsNameList(list, xs) <==> xs == SplitNames(list)
  {
    SplitNamesIsNameList(list);
    if IsNameList(list, xs) {
      var rest :| list == EncodeNames(xs) + rest && NameCutShort(rest);
      NameListIsUnique(xs, rest);
    }
  }

  /** The walk over any bytes finds what the grammar says they hold. */
  lemma ExtensionsGrammar(data: bytes, offset: nat, end: nat)
    requires offset <= end <= |data|
    ensures WalkExtensions(data, offset, end) == FirstHost(SplitExts(data[offset..end]))
  {
    var block := data[offset..end];
    SplitExtsIsExtBlock(block);
    var rest :| block == EncodeExts(SplitExts(block)) + rest && ExtCutShort(rest);
    ExtsGrammar(data, offset, end, SplitExts(block), rest);
  }

  // ---- ClientHello -------------------------------------------------------

  /** A ClientHello up to and including the length of its extension block; the bytes
      behind may be fewer or more than that length. */
  datatype Hello = Hello(
    length: bytes,
    versionRandom: bytes,
    session: bytes,
    suites: bytes,
    compression: bytes,
    declared: nat,
    tail: bytes)

  ghost predicate HelloFits(h: Hello) {
    && |h.length| == 3 && |h.versionRandom| == 34
    && |h.session| < 256 && |h.suites| < 0x10000 && |h.compression| < 256 && h.declared < 0x10000
  }

  function UpToRandom(h: Hello): (b: bytes) {
    [1] + h.length + h.versionRandom
  }

  function UpToSession(h: Hello): (b: bytes)
    requires HelloFits(h)
  {
    UpToRandom(h) + [|h.session|] + h.session
  }

  function UpToSuites(h: Hello): (b: bytes)
    requires HelloFits(h)
  {
    UpToSession(h) + U16Bytes(|h.suites|) + h.suites
  }

  function UpToCompression(h: Hello): (b: bytes)
    requires HelloFits(h)
  {
    UpToSuites(h) + [|h.compression|] + h.compression
  }

  function EncodeHello(h: Hello): (b: bytes)
    requires HelloFits(h)
  {
    UpToCompression(h) + U16Bytes(h.declared) + h.tail
  }

  function ExtBlock(h: Hello): (block: bytes) {
    h.tail[..Min(h.declared, |h.tail|)]
  }

  lemma AtOffset(pre: bytes, mid: bytes, post: bytes)
    ensures forall i :: 0 <= i < |pre| ==> (pre + mid + post)[i] == pre[i]
    ensures forall i :: 0 <= i < |mid| ==> (pre + mid + post)[|pre| + i] == mid[i]
    ensures (pre + mid + post)[|pre| + |mid|..] == post
  {
  }

  lemma SkipsToCompression(data: bytes, h: Hello)
    requires HelloFits(h) && UpToCompression(h) <= data
    ensures SkipBody(data, 4) == Some(|UpToCompression(h)|)
  {
    var a, b, c, d := UpToRandom(h), UpToSession(h), UpToSuites(h), UpToCompression(h);
    AtOffset(a, [|h.session|], h.session);
    AtOffset(b, U16Bytes(|h.suites|), h.suites);
    AtOffset(c, [|h.compression|], h.compression);
    assert |a| == 38 && data[38] == d[38] == c[38] == b[38] == |h.session|;
    assert data[|b|] == d[|b|] == c[|b|] == U16Bytes(|h.suites|)[0];
    assert data[|b| + 1] == d[|b| + 1] == c[|b| + 1] == U16Bytes(|h.suites|)[1];
    assert data[|c|] == d[|c|] == |h.compression|;
  }

  lemma SkipsToExtensions(h: Hello)
    requires HelloFits(h)
    ensures var data := EncodeHello(h);
            SkipFixed(data, 4) == Some((|data| - |h.tail|, h.declared)) && IsHandshakeType(data)
    ensures EncodeHello(h)[|EncodeHello(h)| - |h.tail|..] == h.tail
  {
    var data, d := EncodeHello(h), UpToCompression(h);
    AtOffset(d, U16Bytes(h.declared), h.tail);
    SkipsToCompression(data, h);
    assert data[|d|] == U16Bytes(h.declared)[0] && data[|d| + 1] == U16Bytes(h.declared)[1];
    assert data[0] == d[0] == 1;
  }

  lemma BlockInPlace(h: Hello)
    requires HelloFits(h)
    ensures var data := EncodeHello(h);
            var start := |data| - |h.tail|;
            data[start..Min(start + h.declared, |data|)] == ExtBlock(h)
  {
    SkipsToExtensions(h);
    var data := EncodeHello(h);
    var start := |data| - |h.tail|;
    SliceOfSlice(data, start, |data|, 0, Min(h.declared, |h.tail|));
  }

  lemma HostOfBlock(data: bytes, start: nat, len: nat)
    requires IsHandshakeType(data) && SkipFixed(data, 4) == Some((start, len)) && start <= |data|
    ensures var host := FirstHost(SplitExts(data[start..Min(start + len, |data|)]));
            ParsedHost(data) == if host == [] then None else Some(host)
  {
    hide WalkExtensions, FirstHost, SplitExts, SkipFixed;
    ExtensionsGrammar(data, start, Min(start + len, |data|));
  }

  /** A ClientHello yields the first host name of its extension block, clamped to the bytes present. */
  lemma HelloGrammar(h: Hello)
    requires HelloFits(h)
    ensures var host := FirstHost(SplitExts(ExtBlock(h)));
            ParsedHost(EncodeHello(h)) == if host == [] then None else Some(host)
  {
    hide ParsedHost, SkipFixed, EncodeHello, FirstHost, SplitExts;
    SkipsToExtensions(h);
    BlockInPlace(h);
    HostOfBlock(EncodeHello(h), |EncodeHello(h)| - |h.tail|, h.declared);
  }

  /** Where the fixed fields of a ClientHello end, if they are all there. */
  lemma FixedFieldsEnd(data: bytes) returns (b: nat, c: nat, d: nat)
    requires SkipFixed(data, 4).Some?
    ensures 38 < |data| && b == 39 + data[38] as int
    ensures b + 2 <= |data| && c == b + 2 + U16(data, b)
    ensures c < |data| && d == c + 1 + data[c] as int && d + 2 <= |data|
  {
    b := 39 + data[38] as int;
    c := b + 2 + U16(data, b);
    d := c + 1 + data[c] as int;
  }

  /** A field behind its one-byte length, or its two-byte length, put back in place. */
  lemma JoinByte(data: bytes, a: nat, c: nat)
    requires a < c <= |data|
    ensures data[..a] + [data[a]] + data[a + 1..c] == data[..c]
  {
  }

  lemma JoinU16(data: bytes, a: nat, c: nat)
    requires a + 2 <= c <= |data|
    ensures data[..a] + U16Bytes(U16(data, a)) + data[a + 2..c] == data[..c]
  {
    U16Slice(data, a);
  }

  /** Whatever yields a host name has the shape of a ClientHello. */
  lemma OnlyHellosHaveHosts(data: bytes) returns (h: Hello)
    requires IsHandshakeType(data) && SkipFixed(data, 4).Some?
    ensures HelloFits(h) && EncodeHello(h) == data
  {
    var b, c, d := FixedFieldsEnd(data);
    hide SkipFixed, U16, U16Bytes;
    h := Hello(data[1..4], data[4..38], data[39..b], data[b + 2..c], data[c + 1..d], U16(data, d), data[d + 2..]);
    assert UpToRandom(h) == data[..38];
    hide UpToRandom;
    JoinByte(data, 38, b);
    assert UpToSession(h) == data[..b];
    hide UpToSession;
    JoinU16(data, b, c);
    assert UpToSuites(h) == data[..c];
    hide UpToSuites;
    JoinByte(data, c, d);
    assert UpToCompression(h) == data[..d];
    hide UpToCompression;
    JoinU16(data, d, |data|);
  }

  /** The parser on every byte string: a host name exactly for the ClientHellos whose extension
      block holds one. */
  lemma ParserIsGrammar(data: bytes, host: bytes)
    requires host != []
    ensures ParsedHost(data) == Some(host) <==>
            exists h :: HelloFits(h) && data == EncodeHello(h) && FirstHost(SplitExts(ExtBlock(h))) == host
  {
    if ParsedHost(data) == Some(host) {
      var h := OnlyHellosHaveHosts(data);
      HelloGrammar(h);
    }
    if h :| HelloFits(h) && data == EncodeHello(h) && FirstHost(SplitExts(ExtBlock(h))) == host {
      HelloGrammar(h);
    }
  }

  // ---- Round trip --------------------------------------------------------

  datatype Extension = ServerName(names: seq<Name>) | Other(kind: nat, payload: bytes)

  datatype ClientHello = ClientHello(
    version: bytes,
    random: bytes,
    session: bytes,
    suites: bytes,
    compression: bytes,
    extensions: Option<seq<Extension>>)

  ghost predicate ExtensionFits(x: Extension) {
    match x
    case ServerName(names) => NamesFit(names) && 2 + |EncodeNames(names)| < 0x10000
    case Other(kind, payload) => 0 < kind < 0x10000 && |payload| < 0x10000
  }

  function ToExt(x: Extension): (r: Ext)
    requires ExtensionFits(x)
  {
    match x
    case ServerName(names) => Ext(0, U16Bytes(|EncodeNames(names)|) + EncodeNames(names))
    case Other(kind, payload) => Ext(kind, payload)
  }

  function ToExts(xs: seq<Extension>): (r: seq<Ext>)
    requires forall i :: 0 <= i < |xs| ==> ExtensionFits(xs[i])
    ensures ExtsFit(r)
  {
    if xs == [] then [] else [ToExt(xs[0])] + ToExts(xs[1..])
  }

  /** The first non-empty host_name of the first server_name extension that has one. */
  function FirstServerName(xs: seq<Extension>): (host: bytes) {
    if xs == [] then []
    else if xs[0].ServerName? && FirstName(xs[0].names) != [] then FirstName(xs[0].names)
    else FirstServerName(xs[1..])
  }

  /** Every field fits its length prefix. */
  ghost predicate Fits(m: ClientHello) {
    && |m.version| == 2 && |m.random| == 32
    && |m.session| < 256 && |m.suites| < 0x10000 && |m.compression| < 256
    && match m.extensions
       case None => true
       case Some(xs) =>
         (forall i :: 0 <= i < |xs| ==> ExtensionFits(xs[i])) && |EncodeExts(ToExts(xs))| < 0x10000
  }

  function EncodeBody(m: ClientHello): (b: bytes)
    requires Fits(m)
  {
    m.version + m.random +
    [|m.session|] + m.session +
    U16Bytes(|m.suites|) + m.suites +
    [|m.compression|] + m.compression +
    match m.extensions {
      case None => []
      case Some(xs) => U16Bytes(|EncodeExts(ToExts(xs))|) + EncodeExts(ToExts(xs))
    }
  }

  function EncodeMessage(m: ClientHello): (b: bytes)
    requires Fits(m) && |EncodeBody(m)| < 0x100_0000
  {
    [1] + U24Bytes(|EncodeBody(m)|) + EncodeBody(m)
  }

  function EncodeRecord(version: bytes, payload: bytes): (b: bytes)
    requires |payload| < 0x10000
  {
    [0x16] + version + U16Bytes(|payload|) + payload
  }

  lemma ServerNamePayload(names: seq<Name>)
    requires ExtensionFits(ServerName(names))
    ensures HostOf(ToExt(ServerName(names))) == FirstName(names)
  {
    var list := EncodeNames(names);
    var payload := U16Bytes(|list|) + list;
    assert U16(payload, 0) == |list| by {
      assert payload[0] == U16Bytes(|list|)[0] && payload[1] == U16Bytes(|list|)[1];
    }
    assert NameListOf(payload) == list + [];
    NameListIsUnique(names, []);
  }

  lemma {:induction false} FirstHostIsServerName(xs: seq<Extension>)
    requires forall i :: 0 <= i < |xs| ==> ExtensionFits(xs[i])
    ensures FirstHost(ToExts(xs)) == FirstServerName(xs)
  {
    if xs == [] {
    } else {
      if xs[0].ServerName? {
        ServerNamePayload(xs[0].names);
      }
      assert ToExts(xs)[1..] == ToExts(xs[1..]);
      FirstHostIsServerName(xs[1..]);
    }
  }

  /** The structured message as a ClientHello with a given tail. */
  function AsHello(m: ClientHello, declared: nat, tail: bytes): (h: Hello)
    requires Fits(m) && |EncodeBody(m)| < 0x100_0000
  {
    Hello(U24Bytes(|EncodeBody(m)|), m.version + m.random, m.session, m.suites, m.compression, declared, tail)
  }

  lemma MessageIsHello(m: ClientHello)
    requires Fits(m) && |EncodeBody(m)| < 0x100_0000
    ensures match m.extensions
            case None => EncodeMessage(m) == UpToCompression(AsHello(m, 0, []))
            case Some(xs) =>
              var block := EncodeExts(ToExts(xs));
              EncodeMessage(m) == EncodeHello(AsHello(m, |block|, block))
  {
  }

  lemma MessageRoundTrip(m: ClientHello)
    requires Fits(m) && |EncodeBody(m)| < 0x100_0000
    ensures var host := if m.extensions.Some? then FirstServerName(m.extensions.value) else [];
            ParsedHost(EncodeMessage(m)) == if host == [] then None else Some(host)
  {
    MessageIsHello(m);
    match m.extensions
    case None =>
      SkipsToCompression(EncodeMessage(m), AsHello(m, 0, []));
    case Some(xs) =>
      var block := EncodeExts(ToExts(xs));
      var h := AsHello(m, |block|, block);
      HelloGrammar(h);
      assert ExtBlock(h) == block + [];
      ExtBlockIsUnique(ToExts(xs), []);
      FirstHostIsServerName(xs);
  }

  lemma RecordPayload(version: bytes, payload: bytes, more: bytes)
    requires |version| == 2 && |payload| < 0x10000
    ensures var b := EncodeRecord(version, payload) + more;
            && |b| >= 5 + |payload| && b[0] == 0x16 && U16(b, 3) == |payload|
            && b[5..5 + |payload|] == payload
  {
    var b := EncodeRecord(version, payload) + more;
    assert b[3] == U16Bytes(|payload|)[0] && b[4] == U16Bytes(|payload|)[1];
  }

  /** Peeking the encoding of any ClientHello that fits the peek buffer gives back its server
      name, whatever follows on the connection. */
  lemma RoundTrip(m: ClientHello, version: bytes, more: bytes)
    requires Fits(m) && |version| == 2 && |EncodeBody(m)| + 9 <= 65536
    ensures PeekedHello(EncodeRecord(version, EncodeMessage(m)) + more) ==
            Peeked(if m.extensions.Some? then FirstServerName(m.extensions.value) else [])
  {
    RecordPayload(version, EncodeMessage(m), more);
    MessageRoundTrip(m);
  }

  /** A whole, non-empty handshake record that fits the buffer is peeked, and what is seen depends on its
      payload alone. */
  lemma RecordIsPeeked(version: bytes, payload: bytes, more: bytes)
    requires |version| == 2 && 0 < |payload| <= 65531
    ensures PeekedHello(EncodeRecord(version, payload) + more) ==
            Peeked(if ParsedHost(payload).Some? then ParsedHost(payload).value else [])
  {
    hide ParsedHost;
    RecordPayload(version, payload, more);
  }

  /** Peeking succeeds exactly on connections that begin with such a record. */
  lemma PeekSucceedsExactly(available: bytes)
    ensures PeekedHello(available).Peeked? <==>
            exists version, payload, more ::
              && |version| == 2 && 0 < |payload| <= 65531
              && available == EncodeRecord(version, payload) + more
  {
    hide ParsedHost;
    if PeekedHello(available).Peeked? {
      var len := U16(available, 3);
      var version, payload, more := available[1..3], available[5..5 + len], available[5 + len..];
      U16Slice(available, 3);
      assert available == available[..1] + available[1..3] + available[3..5] + payload + more;
      assert available == EncodeRecord(version, payload) + more;
    }
    forall version, payload, more |
      && |version| == 2 && 0 < |payload| <= 65531
      && available == EncodeRecord(version, payload) + more
      ensures PeekedHello(available).Peeked?
    {
      RecordIsPeeked(version, payload, more);
    }
  }

  /** Why peeking fails, exactly: there is no whole record header, or it is not of type handshake, or the
      record is empty, or its header is there but the payload does not fit the buffer or never comes. */
  lemma PeekFailsExactly(available: bytes)
    ensures PeekedHello(available) == PeekFailed(HeaderUnavailable) <==> |available| < 5
    ensures forall first :: PeekedHello(available) == PeekFailed(NotHandshake(first)) <==>
                              |available| >= 5 && available[0] == first != 0x16
    ensures PeekedHello(available) == PeekFailed(InvalidLength) <==>
            exists version, more :: |version| == 2 && available == EncodeRecord(version, []) + more
    ensures PeekedHello(available) == PeekFailed(RecordUnavailable) <==>
            exists version, n, part :: IsCutRecord(available, version, n, part)
  {
    hide ParsedHost;
    if |available| >= 5 && available[0] == 0x16 {
      var n := U16(available, 3);
      U16Slice(available, 3);
      assert available == [0x16] + available[1..3] + U16Bytes(n) + available[5..];
      if n == 0 {
        assert available == EncodeRecord(available[1..3], []) + available[5..];
      } else if n > 65531 || n > |available| - 5 {
        assert IsCutRecord(available, available[1..3], n, available[5..]);
      }
    }
    forall version, more | |version| == 2 && available == EncodeRecord(version, []) + more
      ensures PeekedHello(available) == PeekFailed(InvalidLength)
    {
      RecordPayload(version, [], more);
    }
    forall version, n, part | IsCutRecord(available, version, n, part)
      ensures PeekedHello(available) == PeekFailed(RecordUnavailable)
    {
      HeaderReads(version, n, part);
    }
  }

  /** A handshake header announcing n bytes, of which too few follow or too many for the buffer. */
  ghost predicate IsCutRecord(available: bytes, version: bytes, n: nat, part: bytes) {
    && |version| == 2 && 0 < n < 0x10000 && available == [0x16] + version + U16Bytes(n) + part
    && (n > 65531 || |part| < n)
  }

  lemma HeaderReads(version: bytes, n: nat, part: bytes)
    requires |version| == 2 && n < 0x10000
    ensures var b := [0x16] + version + U16Bytes(n) + part; |b| == 5 + |part| && b[0] == 0x16 && U16(b, 3) == n
  {
    var b := [0x16] + version + U16Bytes(n) + part;
    assert b[3] == U16Bytes(n)[0] && b[4] == U16Bytes(n)[1];
  }

  /** A record that does not fit the peek buffer is refused, although its length field allows it. */
  lemma OversizedRecordFails(version: bytes, payload: bytes, more: bytes)
    requires |version| == 2 && 65531 < |payload| < 0x10000
    ensures PeekedHello(EncodeRecord(version, payload) + more) == PeekFailed(RecordUnavailable)
  {
    RecordPayload(version, payload, more);
  }

  // ---- Truncation --------------------------------------------------------

  lemma U16Prefix(short: bytes, long: bytes, i: nat)
    requires short <= long && i + 1 < |short|
    ensures U16(long, i) == U16(short, i)
  {
  }

  lemma {:induction false} NamesPrefixStable(short: bytes, long: bytes, offset: nat, end: nat)
    requires short <= long && end <= |short|
    ensures WalkNames(long, offset, end) == WalkNames(short, offset, end)
    decreases end - offset
  {
    hide U16;
    if offset + 3 > end {
    } else {
      var next := offset + 3 + U16(short, offset + 1);
      U16Prefix(short, long, offset + 1);
      if short[offset] == 0 && offset + 3 < next <= end {
        assert long[offset + 3..next] == short[offset + 3..next];
      } else {
        NamesPrefixStable(short, long, next, end);
      }
    }
  }

  /** What the walk finds in the bytes at hand it also finds when more bytes follow. */
  lemma {:induction false} ExtensionsPrefixStable(short: bytes, long: bytes, offset: nat, end: nat, longEnd: nat)
    requires short <= long && end <= |short| && end <= longEnd <= |long|
    requires WalkExtensions(short, offset, end) != []
    ensures WalkExtensions(long, offset, longEnd) == WalkExtensions(short, offset, end)
    decreases end - offset
  {
    hide U16, HostAt;
    var len := U16(short, offset + 2);
    var next := offset + 4 + len;
    U16Prefix(short, long, offset);
    U16Prefix(short, long, offset + 2);
    if next <= end {
      HostPrefixStable(short, long, offset + 4, len);
      if U16(short, offset) != 0 || HostAt(short, offset + 4, len) == [] {
        ExtensionsPrefixStable(short, long, next, end, longEnd);
      }
    }
  }

  lemma ListEndPrefix(short: bytes, long: bytes, offset: nat, len: nat)
    requires short <= long && 2 <= len && offset + len <= |short|
    ensures NameListEnd(long, offset, len) == NameListEnd(short, offset, len)
  {
    hide U16;
    U16Prefix(short, long, offset);
  }

  lemma HostPrefixStable(short: bytes, long: bytes, offset: nat, len: nat)
    requires short <= long && offset + len <= |short|
    ensures HostAt(long, offset, len) == HostAt(short, offset, len)
  {
    hide U16, WalkNames, NameListEnd;
    if len >= 2 {
      ListEndPrefix(short, long, offset, len);
      NamesPrefixStable(short, long, offset + 2, NameListEnd(short, offset, len));
    }
  }

  lemma SkipPrefixStable(short: bytes, long: bytes)
    requires short <= long && SkipFixed(short, 4).Some?
    ensures SkipFixed(long, 4) == SkipFixed(short, 4)
  {
  }

  /** A message cut off anywhere may lose its server name but never shows a different one. */
  lemma PrefixStable(data: bytes, k: nat)
    requires k <= |data| && ParsedHost(data[..k]).Some?
    ensures ParsedHost(data) == ParsedHost(data[..k])
  {
    var short := data[..k];
    SkipPrefixStable(short, data);
    var (offset, len) := SkipFixed(short, 4).value;
    ExtensionsPrefixStable(short, data, offset, Min(offset + len, k), Min(offset + len, |data|));
  }

  /** How many bytes of an extension block it takes to hold its first extension that has a host; more than
      the block has if there is none. */
  function HostEnd(xs: seq<Ext>): (n: nat) {
    if xs == [] then 1
    else 4 + |xs[0].payload| + if HostOf(xs[0]) != [] then 0 else HostEnd(xs[1..])
  }

  /** A cut extension block shows the host of the whole exactly when that extension is whole. */
  lemma {:induction false} CutBlock(xs: seq<Ext>, j: nat)
    requires ExtsFit(xs) && j <= |EncodeExts(xs)|
    ensures FirstHost(SplitExts(EncodeExts(xs)[..j])) == if HostEnd(xs) <= j then FirstHost(xs) else []
  {
    hide EncodeExt, HostOf, ExtCutShort;
    if xs == [] {
      CutExt([], []);
    } else {
      var x, len := xs[0], 4 + |xs[0].payload|;
      ExtsCons(xs, []);
      assert EncodeExts(xs) + [] == EncodeExts(xs) && EncodeExts(xs[1..]) + [] == EncodeExts(xs[1..]);
      ExtLength(x);
      if j < len {
        CutExt(EncodeExt(x)[..j], [x]);
        assert EncodeExts(xs)[..j] == EncodeExt(x)[..j];
      } else {
        var rest := EncodeExts(xs[1..])[..j - len];
        assert EncodeExts(xs)[..j] == EncodeExt(x) + rest;
        CutBlock(xs[1..], j - len);
        SplitCons(x, rest);
        assert ([x] + SplitExts(rest))[1..] == SplitExts(rest);
      }
    }
  }

  lemma ExtLength(x: Ext)
    requires x.kind < 0x10000 && |x.payload| < 0x10000
    ensures |EncodeExt(x)| == 4 + |x.payload|
  {
  }

  /** Nothing, or a part of one extension, holds no whole extension. */
  lemma CutExt(part: bytes, xs: seq<Ext>)
    requires part == [] || (|xs| == 1 && ExtsFit(xs) && part < EncodeExt(xs[0]))
    ensures SplitExts(part) == []
  {
    if part != [] && |part| >= 4 {
      ExtHead(xs[0], []);
      assert EncodeExt(xs[0]) + [] == EncodeExt(xs[0]);
      assert U16(part, 2) == U16(EncodeExt(xs[0]), 2);
    }
  }

  lemma SplitCons(x: Ext, tail: bytes)
    requires x.kind < 0x10000 && |x.payload| < 0x10000
    ensures SplitExts(EncodeExt(x) + tail) == [x] + SplitExts(tail)
  {
    ExtHead(x, tail);
  }

  /** Fewer bytes than the fixed fields show no name. */
  lemma ShortHelloShowsNothing(h: Hello, k: nat)
    requires HelloFits(h) && k < |EncodeHello(h)| - |h.tail|
    ensures ParsedHost(EncodeHello(h)[..k]) == None
  {
    hide EncodeHello, SkipFixed, WalkExtensions;
    SkipsToExtensions(h);
    var short := EncodeHello(h)[..k];
    if SkipFixed(short, 4).Some? {
      SkipPrefixStable(short, EncodeHello(h));
    }
  }

  lemma CutHello(h: Hello, j: nat)
    requires HelloFits(h) && j <= |h.tail|
    ensures EncodeHello(h)[..|EncodeHello(h)| - |h.tail| + j] == EncodeHello(h.(tail := h.tail[..j]))
  {
    var fixed := UpToCompression(h) + U16Bytes(h.declared);
    assert UpToCompression(h.(tail := h.tail[..j])) == UpToCompression(h);
    assert (fixed + h.tail)[..|fixed| + j] == fixed + h.tail[..j];
  }

  /** Where a message that has a server name ends if cut right behind the extension that carries it. */
  function NameEnd(m: ClientHello): (n: nat)
    requires Fits(m) && |EncodeBody(m)| < 0x100_0000 && m.extensions.Some?
  {
    var exts := ToExts(m.extensions.value);
    MessageIsHello(m);
    |EncodeMessage(m)| - |EncodeExts(exts)| + HostEnd(exts)
  }

  /** A message cut off anywhere shows its server name exactly when the first server_name extension that
      has a host is whole. */
  lemma CutMessage(m: ClientHello, k: nat)
    requires Fits(m) && |EncodeBody(m)| < 0x100_0000 && k <= |EncodeMessage(m)|
    ensures ParsedHost(EncodeMessage(m)[..k]) ==
            if m.extensions.Some? && FirstServerName(m.extensions.value) != [] && NameEnd(m) <= k
            then Some(FirstServerName(m.extensions.value)) else None
  {
    hide ParsedHost, EncodeMessage, EncodeHello, EncodeBody, FirstHost, SplitExts, HostEnd;
    MessageIsHello(m);
    MessageRoundTrip(m);
    if m.extensions.None? || FirstServerName(m.extensions.value) == [] {
      if ParsedHost(EncodeMessage(m)[..k]).Some? {
        PrefixStable(EncodeMessage(m), k);
      }
    } else {
      var exts := ToExts(m.extensions.value);
      var block := EncodeExts(exts);
      var h := AsHello(m, |block|, block);
      var start := |EncodeHello(h)| - |block|;
      SkipsToExtensions(h);
      FirstHostIsServerName(m.extensions.value);
      if k < start {
        ShortHelloShowsNothing(h, k);
      } else {
        var cut := h.(tail := block[..k - start]);
        CutHello(h, k - start);
        HelloGrammar(cut);
        assert ExtBlock(cut) == block[..k - start];
        CutBlock(exts, k - start);
      }
    }
  }

  /** So a ClientHello split over several records shows its own name in the first record exactly when that
      record holds the extension that carries it, and no other name ever. */
  lemma FragmentShowsTrueName(m: ClientHello, version: bytes, k: nat, more: bytes)
    requires Fits(m) && |version| == 2 && |EncodeBody(m)| < 0x100_0000
    requires 0 < k <= |EncodeMessage(m)| && k + 5 <= 65536
    ensures PeekedHello(EncodeRecord(version, EncodeMessage(m)[..k]) + more) ==
            Peeked(if m.extensions.Some? && NameEnd(m) <= k then FirstServerName(m.extensions.value) else [])
  {
    hide ParsedHost, EncodeMessage, PeekedHello, EncodeRecord, NameEnd;
    RecordIsPeeked(version, EncodeMessage(m)[..k], more);
    CutMessage(m, k);
  }
}
