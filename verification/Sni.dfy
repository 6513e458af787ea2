/** The server-name peeker: an offset walk over the untrusted bytes of a TLS ClientHello
    (internal/proxy/transparent_shared.go, peek buffer in transparent_loop.go).
    Each loop is proved against a function on offsets; TlsGrammar proves those functions
    against the wire format. */
module Sni {
  import opened Basics

  function U16(data: bytes, i: nat): (r: nat)
    requires i + 1 < |data|
    ensures r < 0x10000
  {
    data[i] as int * 256 + data[i + 1] as int
  }

  function Min(a: nat, b: nat): (r: nat) {
    if a < b then a else b
  }

  // ---- What the loops compute -------------------------------------------

  /** First non-empty host name of the (type, length, name) items in data[offset..end]. */
  function WalkNames(data: bytes, offset: nat, end: nat): (host: bytes)
    requires end <= |data|
    decreases end - offset
  {
    if offset + 3 > end then []
    else
      var next := offset + 3 + U16(data, offset + 1);
      if data[offset] == 0 && offset + 3 < next <= end then data[offset + 3..next]
      else WalkNames(data, next, end)
  }

  /** Where the name list of a server_name extension ends: cut off at the extension's end. */
  function NameListEnd(data: bytes, offset: nat, extLen: nat): (end: nat)
    requires 2 <= extLen && offset + extLen <= |data|
    ensures offset + 2 <= end <= offset + extLen
  {
    offset + Min(2 + U16(data, offset), extLen)
  }

  /** The host name in a server_name payload of any length. */
  function HostAt(data: bytes, offset: nat, extLen: nat): (host: bytes)
    requires offset + extLen <= |data|
  {
    if extLen < 2 then [] else WalkNames(data, offset + 2, NameListEnd(data, offset, extLen))
  }

  /** First host name over the (type, length, payload) extensions in data[offset..end]. */
  function WalkExtensions(data: bytes, offset: nat, end: nat): (host: bytes)
    requires end <= |data|
    decreases end - offset
  {
    if offset + 4 > end then []
    else
      var len := U16(data, offset + 2);
      var next := offset + 4 + len;
      var host := if U16(data, offset) == 0 && next <= end then HostAt(data, offset + 4, len) else [];
      if host != [] then host else WalkExtensions(data, next, end)
  }

  /** A payload of five bytes or fewer holds no non-empty name, so the `extLen > 5` test loses nothing. */
  lemma ShortPayloadHasNoHost(data: bytes, offset: nat, extLen: nat)
    requires extLen <= 5 && offset + extLen <= |data|
    ensures HostAt(data, offset, extLen) == []
  {
    if 2 <= extLen {
      var start, end := offset + 2, NameListEnd(data, offset, extLen);
      if start + 3 <= end {
        assert WalkNames(data, start + 3 + U16(data, start + 1), end) == [];
      }
    }
  }

  // ---- The loops ---------------------------------------------------------

  predicate IsDnsEntry(nameType: byte, nameLen: nat, nameOffset: nat, nameEnd: nat) {
    nameType == 0 && nameLen > 0 && nameOffset + nameLen <= nameEnd
  }

  function ClampServerNameListEnd(nameEnd: nat, extStart: nat, extLen: nat): (r: nat) {
    if nameEnd > extStart + extLen then extStart + extLen else nameEnd
  }

  method SniFromServerNameList(data: bytes, offset: nat, end: nat, extLen: nat) returns (name: bytes)
    requires 5 < extLen && offset + extLen <= end <= |data|
    ensures name == HostAt(data, offset, extLen)
  {
    var listLen := U16(data, offset);
    var nameOffset := offset + 2;
    var nameEnd := ClampServerNameListEnd(nameOffset + listLen, offset, extLen);
    while nameOffset + 3 <= nameEnd
      invariant WalkNames(data, offset + 2, nameEnd) == WalkNames(data, nameOffset, nameEnd)
      decreases nameEnd - nameOffset
    {
      var nameType := data[nameOffset];
      var nameLen := U16(data, nameOffset + 1);
      nameOffset := nameOffset + 3;
      if IsDnsEntry(nameType, nameLen, nameOffset, nameEnd) {
        return data[nameOffset..nameOffset + nameLen];
      }
      nameOffset := nameOffset + nameLen;
    }
    name := [];
  }

  predicate IsSniExtension(extType: nat, extLen: nat, offset: nat, end: nat) {
    extType == 0 && extLen > 5 && offset + extLen <= end
  }

  method SniFromExtension(data: bytes, offset: nat, end: nat, extType: nat, extLen: nat) returns (name: bytes)
    requires offset <= end <= |data|
    ensures name == if extType == 0 && offset + extLen <= end then HostAt(data, offset, extLen) else []
  {
    if !IsSniExtension(extType, extLen, offset, end) {
      if offset + extLen <= end && extLen <= 5 {
        ShortPayloadHasNoHost(data, offset, extLen);
      }
      return [];
    }
    name := SniFromServerNameList(data, offset, end, extLen);
  }

  method SniFromExtensions(data: bytes, start: nat, end: nat) returns (name: bytes)
    requires end <= |data|
    ensures name == WalkExtensions(data, start, end)
  {
    var offset := start;
    while offset + 4 <= end
      invariant WalkExtensions(data, start, end) == WalkExtensions(data, offset, end)
      decreases end - offset
    {
      var extType := U16(data, offset);
      var extLen := U16(data, offset + 2);
      name := SniFromExtension(data, offset + 4, end, extType, extLen);
      if name != [] {
        return;
      }
      offset := offset + 4 + extLen;
    }
    name := [];
  }

  // ---- The fixed fields --------------------------------------------------

  function SkipVersionRandom(data: bytes, offset: nat): (r: Option<nat>) {
    if offset + 34 > |data| then None else Some(offset + 34)
  }

  function SkipSessionAndCipher(data: bytes, offset: nat): (r: Option<nat>) {
    if offset + 1 > |data| then None
    else
      var ciphers := offset + 1 + data[offset];
      if ciphers + 2 > |data| then None else Some(ciphers + 2 + U16(data, ciphers))
  }

  function SkipVariable(data: bytes, offset: nat): (r: Option<nat>) {
    var compression := SkipSessionAndCipher(data, offset);
    if compression.None? || compression.value + 1 > |data| then None
    else Some(compression.value + 1 + data[compression.value])
  }

  function SkipBody(data: bytes, offset: nat): (r: Option<nat>) {
    var session := SkipVersionRandom(data, offset);
    if session.None? then None else SkipVariable(data, session.value)
  }

  /** Offset and declared length of the extension block. */
  function SkipFixed(data: bytes, offset: nat): (r: Option<(nat, nat)>)
    ensures r.Some? ==> offset <= r.value.0 <= |data|
  {
    var ext := SkipBody(data, offset);
    if ext.None? || ext.value + 2 > |data| then None
    else Some((ext.value + 2, U16(data, ext.value)))
  }

  predicate IsHandshakeType(data: bytes) {
    |data| >= 2 && data[0] == 1
  }

  /** The host name of a handshake message, if it is a ClientHello that has one. */
  function ParsedHost(data: bytes): (host: Option<bytes>) {
    if !IsHandshakeType(data) then None
    else
      var ext := SkipFixed(data, 4);
      if ext.None? then None
      else
        var host := WalkExtensions(data, ext.value.0, Min(ext.value.0 + ext.value.1, |data|));
        if host == [] then None else Some(host)
  }

  method ParseClientHello(data: bytes) returns (host: Option<bytes>)
    ensures host == ParsedHost(data)
  {
    if !IsHandshakeType(data) {
      return None;
    }
    var ext := SkipFixed(data, 4);
    if ext.None? {
      return None;
    }
    var (offset, len) := ext.value;
    var end := offset + len;
    if end > |data| {
      end := |data|;
    }
    var sni := SniFromExtensions(data, offset, end);
    host := if sni == [] then None else Some(sni);
  }

  // ---- Peeking the record ------------------------------------------------

  const PEEK_BUFFER: nat := 65536

  datatype PeekError = HeaderUnavailable | NotHandshake(first: byte) | InvalidLength | RecordUnavailable
  datatype PeekResult = Peeked(serverName: bytes) | PeekFailed(error: PeekError)

  /** bufio.Reader.Peek over a connection that will deliver `available` and then fail or end. */
  function Peek(available: bytes, n: nat): (r: Option<bytes>) {
    if n > PEEK_BUFFER || n > |available| then None else Some(available[..n])
  }

  /** Peeks one whole TLS record and reads the server name from it; no name means an empty one. */
  method PeekHello(available: bytes) returns (r: PeekResult)
    ensures r == PeekedHello(available)
  {
    var header := Peek(available, 5);
    if header.None? {
      return PeekFailed(HeaderUnavailable);
    }
    if header.value[0] != 0x16 {
      return PeekFailed(NotHandshake(header.value[0]));
    }
    var recordLen := U16(header.value, 3);
    if recordLen <= 0 {
      return PeekFailed(InvalidLength);
    }
    var data := Peek(available, 5 + recordLen);
    if data.None? {
      return PeekFailed(RecordUnavailable);
    }
    assert data.value[5..] == available[5..5 + recordLen];
    var hello := ParseClientHello(data.value[5..]);
    r := Peeked(if hello.Some? then hello.value else []);
  }

  /** The same as one expression over the bytes of the connection. */
  function PeekedHello(available: bytes): (r: PeekResult) {
    if |available| < 5 then PeekFailed(HeaderUnavailable)
    else if available[0] != 0x16 then PeekFailed(NotHandshake(available[0]))
    else
      var len := U16(available, 3);
      if len == 0 then PeekFailed(InvalidLength)
      else if 5 + len > PEEK_BUFFER || 5 + len > |available| then PeekFailed(RecordUnavailable)
      else
        var host := ParsedHost(available[5..5 + len]);
        Peeked(if host.Some? then host.value else [])
  }
}
