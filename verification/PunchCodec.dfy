/**
 * The endpoint messages of the punch control protocol (src/punch_rpc.c): how the sender
 * lays them out and what the parser accepts.
 */
module PunchCodec {
  import opened Addresses
  import opened Basics
  import opened Buffers

  type Bytes = seq<bv8>

  const HEADER := 8
  const ENDPOINT := 30
  const SCOPES := 8

  const VERSION: bv8 := 1
  const VERSION_SCOPED: bv8 := 2

  const SEND_CONE: bv8 := 2
  const SEND_EASY_SYM: bv8 := 4
  const SEND_HARD_SYM: bv8 := 5
  const BOTH_EASY_SYM: bv8 := 6
  const RESULT_EXT: bv8 := 9
  const RESULT_LISTENER: bv8 := 10
  const LISTENER_INFO: bv8 := 12

  const RESULT_EXT_SIZE := 20
  const RESULT_LISTENER_SIZE := 44
  const LISTENER_SIZE := 4
  /** Where the mapped address lies in the extra data of a listener result. */
  const MAPPED_AT := 24

  const AF_INET: bv8 := 4
  const AF_INET6: bv8 := 6
  const ADDRESS_AVAILABLE: bv8 := 1

  // ------------------------------------------------------------- numbers

  /** The byte with a value. */
  function ByteOf(n: nat): bv8 {
    if n == 0 then 0 else ByteOf(n - 1) + 1
  }

  lemma {:induction false} ByteRoundTrip(n: nat)
    requires n < 256
    ensures ByteOf(n) as int == n
  {
    if n > 0 { ByteRoundTrip(n - 1); }
  }

  function Be16(n: Port): (r: Bytes)
    ensures |r| == 2
  {
    [ByteOf(n / 256), ByteOf(n % 256)]
  }

  function Read16(b: Bytes): Port
    requires |b| == 2
  {
    (b[0] as int) * 256 + b[1] as int
  }

  function Be32(n: bv32): (r: Bytes)
    ensures |r| == 4
  {
    [(n >> 24) as bv8, ((n >> 16) & 0xff) as bv8, ((n >> 8) & 0xff) as bv8, (n & 0xff) as bv8]
  }

  function Read32(b: Bytes): bv32
    requires |b| == 4
  {
    (b[0] as bv32 << 24) | (b[1] as bv32 << 16) | (b[2] as bv32 << 8) | b[3] as bv32
  }

  lemma RoundTrip16(n: Port)
    ensures Read16(Be16(n)) == n
  {
    ByteRoundTrip(n / 256);
    ByteRoundTrip(n % 256);
  }

  lemma RoundTrip32(n: bv32)
    ensures Read32(Be32(n)) == n
  {
  }

  /** A signed number as 16 bits, and back. */
  function Wrapped16(d: int): Port {
    d % 0x1_0000
  }

  function Signed16(n: Port): int {
    if n < 0x8000 then n else n - 0x1_0000
  }

  /** A port delta survives exactly if it fits 16 signed bits. */
  lemma DeltaRoundTrip(d: int)
    ensures Signed16(Wrapped16(d)) == d <==> -0x8000 <= d < 0x8000
  {
  }

  // ------------------------------------------------------------- addresses

  function Family(a: Address): bv8
    requires !a.Unspec?
  {
    if a.Inet? then AF_INET else AF_INET6
  }

  /** The sixteen address bytes: an IPv4 address comes first, with zeros behind it. */
  function AddressBytes(a: Address): (r: Bytes)
    requires !a.Unspec?
    ensures |r| == 16
  {
    if a.Inet? then a.ip4 + [0, 0, 0, 0, 0, 0, 0, 0, 0, 0, 0, 0] else a.ip6
  }

  function DecodeAddress(family: bv8, port: Port, address: Bytes, scope: bv32): Option<Address>
    requires |address| == 16
  {
    if family == AF_INET then Some(Inet(address[..4], port))
    else if family == AF_INET6 then Some(Inet6(address, port, scope))
    else None
  }

  /** The scope an address needs to be announced with, or zero. */
  function ScopeOf(a: Address): bv32 {
    if a.Inet6? then a.scope else 0
  }

  lemma AddressRoundTrip(a: Address)
    requires !a.Unspec?
    ensures DecodeAddress(Family(a), a.GetPort(), AddressBytes(a), ScopeOf(a)) == Some(a)
  {
    if a.Inet? { assert AddressBytes(a)[..4] == a.ip4; }
  }

  // ------------------------------------------------------------- the sender

  /** What the sender is asked to send; `compact` is the address that the extra data holds in compact form. */
  datatype Message = Message(kind: bv8, key: Bytes, natType: bv8, endpoint: Address, minPort: Port, maxPort: Port,
                             delta: int, code: bv8, count: Port, extra: Bytes, compact: Option<Address>)

  function CompactScope(m: Message): bv32 {
    if m.compact.Some? then ScopeOf(m.compact.value) else 0
  }

  predicate Scoped(m: Message) {
    ScopeOf(m.endpoint) != 0 || CompactScope(m) != 0
  }

  function ScopeSize(m: Message): nat {
    if Scoped(m) then SCOPES else 0
  }

  function Size(m: Message): nat {
    HEADER + ENDPOINT + ScopeSize(m) + |m.extra| + |m.key|
  }

  /** The sender gives up on long keys, long messages and addresses that are not set. */
  predicate Sendable(m: Message) {
    |m.key| <= 0xff && Size(m) <= 0xffff && !m.endpoint.Unspec?
  }

  function HeaderBytes(version: bv8, kind: bv8, size: Port): (r: Bytes)
    ensures |r| == HEADER
  {
    [0x66, 0x70, 0x63, 0x68, version, kind] + Be16(size)
  }

  function Five(a: Bytes, b: Bytes, c: Bytes, d: Bytes, e: Bytes): (r: Bytes)
    requires |a| == |b| == |c| == |d| == |e| == 2
    ensures |r| == 10 && r[0..2] == a && r[2..4] == b && r[4..6] == c && r[6..8] == d && r[8..10] == e
  {
    a + b + c + d + e
  }

  function EndpointBytes(m: Message): (r: Bytes)
    requires Sendable(m)
    ensures |r| == ENDPOINT
  {
    [ByteOf(|m.key|), m.natType, Family(m.endpoint), m.code]
    + Five(Be16(m.endpoint.GetPort()), Be16(m.minPort), Be16(m.maxPort), Be16(Wrapped16(m.delta)), Be16(m.count))
    + AddressBytes(m.endpoint)
  }

  function ScopeField(m: Message): (r: Bytes)
    ensures |r| == ScopeSize(m)
  {
    if Scoped(m) then Be32(ScopeOf(m.endpoint)) + Be32(CompactScope(m)) else []
  }

  function Encoded(m: Message): (r: Bytes)
    requires Sendable(m)
    ensures |r| == Size(m)
  {
    HeaderBytes(if Scoped(m) then VERSION_SCOPED else VERSION, m.kind, Size(m))
    + EndpointBytes(m) + ScopeField(m) + m.extra + m.key
  }

  method Append(buffer: array<bv8>, cursor: nat, data: Bytes) returns (next: nat)
    requires cursor + |data| <= buffer.Length
    modifies buffer
    ensures next == cursor + |data| && buffer[..next] == old(buffer[..cursor]) + data
  {
    Store(buffer, cursor, data);
    next := cursor + |data|;
    assert buffer[..next] == buffer[..][..next];
  }

  /** Lays the parts out one behind the other. */
  method LayOut(header: Bytes, endpoint: Bytes, scopes: Bytes, extra: Bytes, key: Bytes) returns (buffer: array<bv8>)
    ensures fresh(buffer) && buffer[..] == header + endpoint + scopes + extra + key
  {
    buffer := new bv8[|header| + |endpoint| + |scopes| + |extra| + |key|];
    var cursor := Append(buffer, 0, header);
    cursor := Append(buffer, cursor, endpoint);
    if |scopes| > 0 {
      cursor := Append(buffer, cursor, scopes);
    }
    if |extra| > 0 {
      cursor := Append(buffer, cursor, extra);
    }
    cursor := Append(buffer, cursor, key);
  }

  method Build(m: Message) returns (buffer: array?<bv8>)
    ensures buffer != null <==> Sendable(m)
    ensures buffer != null ==> buffer[..] == Encoded(m)
  {
    if |m.key| > 0xff || Size(m) > 0xffff || m.endpoint.Unspec? {
      return null;
    }
    var version := if Scoped(m) then VERSION_SCOPED else VERSION;
    buffer := LayOut(HeaderBytes(version, m.kind, Size(m)), EndpointBytes(m), ScopeField(m), m.extra, m.key);
  }

  // ------------------------------------------------------------- the parser

  /** The extra data some kinds of message always carry. */
  function StaticExtra(kind: bv8): nat {
    if kind == RESULT_EXT then RESULT_EXT_SIZE
    else if kind == RESULT_LISTENER then RESULT_LISTENER_SIZE
    else if kind == LISTENER_INFO then LISTENER_SIZE
    else 0
  }

  /** Commands may carry the listener they are for. */
  predicate AcceptsListener(kind: bv8) {
    kind == SEND_CONE || kind == SEND_EASY_SYM || kind == SEND_HARD_SYM || kind == BOTH_EASY_SYM
  }

  /** Extra data of this size belongs to messages of this kind. */
  predicate ExtraFits(kind: bv8, size: int) {
    if StaticExtra(kind) > 0 then size == StaticExtra(kind)
    else if AcceptsListener(kind) then size == 0 || size == LISTENER_SIZE
    else size == 0
  }

  function ExtraSize(kind: bv8, rest: int): nat {
    if StaticExtra(kind) > 0 then StaticExtra(kind)
    else if AcceptsListener(kind) && rest == LISTENER_SIZE then LISTENER_SIZE
    else 0
  }

  /** What the receiver reads from an accepted message. */
  datatype Wire = Wire(kind: bv8, key: Bytes, natType: bv8, family: bv8, code: bv8, port: Port, minPort: Port,
                       maxPort: Port, delta: int, count: Port, address: Bytes, scope: bv32, compactScope: bv32,
                       extra: Bytes)
  {
    predicate Formed() {
      |address| == 16
    }
  }

  predicate StartsRight(b: Bytes) {
    && |b| >= HEADER && b[..4] == [0x66, 0x70, 0x63, 0x68]
    && (b[4] == VERSION || b[4] == VERSION_SCOPED)
    && Read16(b[6..8]) == |b| >= HEADER + ENDPOINT
  }

  function ScopesIn(b: Bytes): nat
    requires StartsRight(b)
  {
    if b[4] == VERSION_SCOPED then SCOPES else 0
  }

  /** Where the extra data starts, and how much lies between the fixed part and the end without the key. */
  function ExtraAt(b: Bytes): nat
    requires StartsRight(b)
  {
    HEADER + ENDPOINT + ScopesIn(b)
  }

  function Rest(b: Bytes): int
    requires StartsRight(b)
  {
    |b| - ExtraAt(b) - b[HEADER] as int
  }

  function EndpointScope(b: Bytes): bv32
    requires StartsRight(b) && ExtraAt(b) <= |b|
  {
    if b[4] == VERSION_SCOPED then Read32(b[38..42]) else 0
  }

  function CompactScopeIn(b: Bytes): bv32
    requires StartsRight(b) && ExtraAt(b) <= |b|
  {
    if b[4] == VERSION_SCOPED then Read32(b[42..46]) else 0
  }

  predicate Accepted(b: Bytes) {
    && StartsRight(b) && ExtraAt(b) <= |b| && ExtraFits(b[5], Rest(b))
    && (EndpointScope(b) != 0 ==> b[HEADER + 2] == AF_INET6)
    && (CompactScopeIn(b) != 0 ==> b[5] == RESULT_LISTENER && b[ExtraAt(b) + MAPPED_AT] == AF_INET6)
  }

  function ReadFields(kind: bv8, e: Bytes, key: Bytes, extra: Bytes, scope: bv32, compactScope: bv32): (w: Wire)
    requires |e| == ENDPOINT
    ensures w.Formed()
  {
    Wire(kind, key, e[1], e[2], e[3], Read16(e[4..6]), Read16(e[6..8]), Read16(e[8..10]),
         Signed16(Read16(e[10..12])), Read16(e[12..14]), e[14..30], scope, compactScope, extra)
  }

  /** The extra data and the key lie behind the fixed part, the key at the end. */
  function Read(b: Bytes): (w: Wire)
    requires Accepted(b)
    ensures w.Formed()
  {
    var at := ExtraAt(b);
    var keyAt := at + ExtraSize(b[5], Rest(b));
    ReadFields(b[5], b[HEADER..HEADER + ENDPOINT], b[keyAt..keyAt + b[HEADER] as int], b[at..keyAt],
               EndpointScope(b), CompactScopeIn(b))
  }

  // ------------------------------------------------------------- what is sent is read

  /** The parts of a concatenation of five. */
  lemma Parts(h: Bytes, e: Bytes, s: Bytes, x: Bytes, k: Bytes)
    requires |h| == HEADER && |e| == ENDPOINT
    ensures var b, at := h + e + s + x + k, HEADER + ENDPOINT + |s|;
      && b[..HEADER] == h && b[HEADER..HEADER + ENDPOINT] == e && b[HEADER + ENDPOINT..at] == s
      && b[at..at + |x|] == x && b[at + |x|..at + |x| + |k|] == k
  {
    var b, at := h + e + s + x + k, HEADER + ENDPOINT + |s|;
    assert b[..HEADER] == h;
    assert b[HEADER..HEADER + ENDPOINT] == e;
    assert b[HEADER + ENDPOINT..at] == s;
    assert b[at..at + |x|] == x;
    assert b[at + |x|..at + |x| + |k|] == k;
  }

  lemma HeaderFields(version: bv8, kind: bv8, size: Port)
    ensures var h := HeaderBytes(version, kind, size);
      h[..4] == [0x66, 0x70, 0x63, 0x68] && h[4] == version && h[5] == kind && Read16(h[6..8]) == size
  {
    RoundTrip16(size);
    assert HeaderBytes(version, kind, size)[6..8] == Be16(size);
  }

  lemma Three(a: Bytes, b: Bytes, c: Bytes)
    requires |a| == 4 && |b| == 10 && |c| == 16
    ensures var e := a + b + c;
      && e[..4] == a && e[14..30] == c && e[4..6] == b[0..2] && e[6..8] == b[2..4] && e[8..10] == b[4..6]
      && e[10..12] == b[6..8] && e[12..14] == b[8..10]
  {
    var e := a + b + c;
    assert e[4..14] == b;
    SliceOfSlice(e, 4, 14, 0, 2);
    SliceOfSlice(e, 4, 14, 2, 4);
    SliceOfSlice(e, 4, 14, 4, 6);
    SliceOfSlice(e, 4, 14, 6, 8);
    SliceOfSlice(e, 4, 14, 8, 10);
  }

  lemma EndpointFields(m: Message)
    requires Sendable(m)
    ensures var e := EndpointBytes(m);
      && e[..4] == [ByteOf(|m.key|), m.natType, Family(m.endpoint), m.code]
      && e[4..6] == Be16(m.endpoint.GetPort()) && e[6..8] == Be16(m.minPort) && e[8..10] == Be16(m.maxPort)
      && e[10..12] == Be16(Wrapped16(m.delta)) && e[12..14] == Be16(m.count) && e[14..30] == AddressBytes(m.endpoint)
  {
    var numbers := Five(Be16(m.endpoint.GetPort()), Be16(m.minPort), Be16(m.maxPort), Be16(Wrapped16(m.delta)),
      Be16(m.count));
    Three([ByteOf(|m.key|), m.natType, Family(m.endpoint), m.code], numbers, AddressBytes(m.endpoint));
  }

  lemma ScopeFields(m: Message)
    requires Scoped(m)
    ensures Read32(ScopeField(m)[..4]) == ScopeOf(m.endpoint) && Read32(ScopeField(m)[4..8]) == CompactScope(m)
  {
    RoundTrip32(ScopeOf(m.endpoint));
    RoundTrip32(CompactScope(m));
    assert ScopeField(m)[..4] == Be32(ScopeOf(m.endpoint)) && ScopeField(m)[4..8] == Be32(CompactScope(m));
  }

  lemma HeaderIsRight(m: Message)
    requires Sendable(m)
    ensures var b := Encoded(m);
      && StartsRight(b) && b[4] == (if Scoped(m) then VERSION_SCOPED else VERSION) && b[5] == m.kind
      && ExtraAt(b) == HEADER + ENDPOINT + ScopeSize(m) <= |b|
  {
    var b, version := Encoded(m), if Scoped(m) then VERSION_SCOPED else VERSION;
    var h := HeaderBytes(version, m.kind, Size(m));
    HeaderFields(version, m.kind, Size(m));
    Parts(h, EndpointBytes(m), ScopeField(m), m.extra, m.key);
    assert b[..4] == b[..HEADER][..4] && b[6..8] == b[..HEADER][6..8];
    assert b[4] == b[..HEADER][4] && b[5] == b[..HEADER][5];
  }

  lemma BodyIsRight(m: Message)
    requires Sendable(m)
    ensures var b, at := Encoded(m), HEADER + ENDPOINT + ScopeSize(m);
      && b[HEADER..HEADER + ENDPOINT] == EndpointBytes(m) && b[HEADER + ENDPOINT..at] == ScopeField(m)
      && b[at..at + |m.extra|] == m.extra && b[at + |m.extra|..at + |m.extra| + |m.key|] == m.key
  {
    var version := if Scoped(m) then VERSION_SCOPED else VERSION;
    Parts(HeaderBytes(version, m.kind, Size(m)), EndpointBytes(m), ScopeField(m), m.extra, m.key);
  }

  lemma SizesAreRight(m: Message)
    requires Sendable(m)
    ensures
      var b := Encoded(m);
      && StartsRight(b) && b[HEADER] as int == |m.key| && Rest(b) == |m.extra|
      && b[HEADER + 2] == Family(m.endpoint)
  {
    var b := Encoded(m);
    HeaderIsRight(m);
    BodyIsRight(m);
    EndpointFields(m);
    var e := b[HEADER..HEADER + ENDPOINT];
    assert b[HEADER] == e[0] == e[..4][0] && b[HEADER + 2] == e[2] == e[..4][2];
    ByteRoundTrip(|m.key|);
  }

  lemma ScopesAreRight(m: Message)
    requires Sendable(m)
    ensures var b := Encoded(m);
      && StartsRight(b) && ExtraAt(b) <= |b|
      && EndpointScope(b) == ScopeOf(m.endpoint) && CompactScopeIn(b) == CompactScope(m)
  {
    var b := Encoded(m);
    HeaderIsRight(m);
    if Scoped(m) {
      BodyIsRight(m);
      ScopeFields(m);
      SliceOfSlice(b, 38, 46, 0, 4);
      SliceOfSlice(b, 38, 46, 4, 8);
    }
  }

  /**
   * The message is one the protocol knows: its extra data has the size its kind wants, and a scope for an embedded
   * address comes only with a listener result that embeds an IPv6 address.
   */
  predicate Proper(m: Message) {
    && ExtraFits(m.kind, |m.extra|)
    && (CompactScope(m) != 0 ==> m.kind == RESULT_LISTENER && m.extra[MAPPED_AT] == AF_INET6)
  }

  /** Of the messages the sender builds, the parser accepts exactly the proper ones. */
  lemma SentIsAccepted(m: Message)
    requires Sendable(m)
    ensures Accepted(Encoded(m)) <==> Proper(m)
  {
    var b := Encoded(m);
    HeaderIsRight(m);
    SizesAreRight(m);
    ScopesAreRight(m);
    if |m.extra| > MAPPED_AT {
      BodyIsRight(m);
      assert b[ExtraAt(b) + MAPPED_AT] == b[ExtraAt(b)..ExtraAt(b) + |m.extra|][MAPPED_AT];
    }
  }

  // ------------------------------------------------------------- the layout on the wire

  /** The 16-bit number in network byte order at a place. */
  ghost predicate NumberAt(b: Bytes, at: nat, n: int) {
    at + 2 <= |b| && b[at] as int * 256 + b[at + 1] as int == n
  }

  lemma NumberIs(b: Bytes, e: Bytes, k: nat, at: nat, n: Port)
    requires k + |e| <= |b| && b[k..k + |e|] == e && at + 2 <= |e| && e[at..at + 2] == Be16(n)
    ensures NumberAt(b, k + at, n)
  {
    RoundTrip16(n);
    assert b[k + at] == e[at] == e[at..at + 2][0] && b[k + at + 1] == e[at + 1] == e[at..at + 2][1];
  }

  /** Where the numbers of the endpoint stand. */
  lemma NumbersOnWire(m: Message)
    requires Sendable(m)
    ensures var b := Encoded(m);
      && NumberAt(b, 12, m.endpoint.GetPort()) && NumberAt(b, 14, m.minPort) && NumberAt(b, 16, m.maxPort)
      && NumberAt(b, 18, m.delta % 0x1_0000) && NumberAt(b, 20, m.count)
  {
    var b, e := Encoded(m), EndpointBytes(m);
    BodyIsRight(m);
    EndpointFields(m);
    NumberIs(b, e, 8, 4, m.endpoint.GetPort());
    NumberIs(b, e, 8, 6, m.minPort);
    NumberIs(b, e, 8, 8, m.maxPort);
    NumberIs(b, e, 8, 10, Wrapped16(m.delta));
    NumberIs(b, e, 8, 12, m.count);
  }

  /** The header of 8 bytes. */
  lemma HeaderOnWire(m: Message)
    requires Sendable(m)
    ensures var b := Encoded(m);
      && |b| >= 8 && b[..4] == [0x66, 0x70, 0x63, 0x68] && NumberAt(b, 6, |b|) && b[5] == m.kind
      && b[4] == if ScopeOf(m.endpoint) != 0 || CompactScope(m) != 0 then 2 else 1
  {
    var b := Encoded(m);
    HeaderIsRight(m);
    assert b[6..8][0] == b[6] && b[6..8][1] == b[7];
  }

  /** The bytes of the endpoint that are not part of a number. */
  lemma EndpointOnWire(m: Message)
    requires Sendable(m)
    ensures var b := Encoded(m);
      && |b| >= 38 && b[8] as int == |m.key| && b[9] == m.natType && b[11] == m.code
      && b[10] == (if m.endpoint.Inet? then 4 else 6)
      && (if m.endpoint.Inet? then b[22..26] == m.endpoint.ip4 else b[22..38] == m.endpoint.ip6)
  {
    var b, e := Encoded(m), EndpointBytes(m);
    BodyIsRight(m);
    EndpointFields(m);
    ByteRoundTrip(|m.key|);
    BytesAt(b, e);
    AddressAt(m.endpoint, b[22..38]);
    SliceOfSlice(b, 22, 38, 0, 4);
    assert b[22..38][..4] == b[22..38][0..4];
  }

  lemma BytesAt(b: Bytes, e: Bytes)
    requires |e| == 30 && |b| >= 38 && b[8..38] == e
    ensures b[8] == e[..4][0] && b[9] == e[..4][1] && b[10] == e[..4][2] && b[11] == e[..4][3] && b[22..38] == e[14..30]
  {
    assert forall k :: 0 <= k < 4 ==> b[8 + k] == e[k] == e[..4][k];
    SliceOfSlice(b, 8, 38, 14, 30);
  }

  lemma AddressAt(a: Address, bytes: Bytes)
    requires !a.Unspec? && bytes == AddressBytes(a)
    ensures if a.Inet? then bytes[..4] == a.ip4 else bytes == a.ip6
  {
  }

  /** Behind header and endpoint, and the two scopes if there are any, stand the extra data and the key. */
  lemma TailOnWire(m: Message)
    requires Sendable(m)
    ensures var b, at := Encoded(m), if ScopeOf(m.endpoint) != 0 || CompactScope(m) != 0 then 46 else 38;
      && |b| == at + |m.extra| + |m.key|
      && b[at..at + |m.extra|] == m.extra && b[at + |m.extra|..at + |m.extra| + |m.key|] == m.key
      && (at == 46 ==> Read32(b[38..42]) == ScopeOf(m.endpoint) && Read32(b[42..46]) == CompactScope(m))
  {
    HeaderIsRight(m);
    BodyIsRight(m);
    ScopesAreRight(m);
  }

  /** The sizes of extra data that come with each kind of message, as numbers on the wire. */
  predicate SizeOnWire(kind: int, size: int) {
    if kind == 9 then size == 20
    else if kind == 10 then size == 44
    else if kind == 12 then size == 4
    else if kind == 2 || kind == 4 || kind == 5 || kind == 6 then size == 0 || size == 4
    else size == 0
  }

  /**
   * Of the messages the sender builds without an embedded address, the parser accepts exactly those of the sizes above:
   * results with 20 bytes, listener results with 44, listener announcements with 4, the four punch commands with or
   * without the 4 bytes of a listener, and all others with nothing.
   */
  lemma AcceptedOnWire(m: Message)
    requires Sendable(m) && m.compact.None?
    ensures Accepted(Encoded(m)) <==> SizeOnWire(m.kind as int, |m.extra|)
  {
    SentIsAccepted(m);
  }

  /** One with the scope of an embedded address is a listener result whose mapped address is an IPv6 address. */
  lemma ScopedOnWire(m: Message)
    requires Sendable(m) && CompactScope(m) != 0
    ensures Accepted(Encoded(m)) <==> m.kind == 10 && |m.extra| == 44 && m.extra[24] == 6
  {
    SentIsAccepted(m);
  }

  /** The message is read as it was meant, up to the width of the port delta. */
  ghost predicate Means(w: Wire, m: Message) {
    && w.Formed() && w.kind == m.kind && w.key == m.key && w.natType == m.natType && w.code == m.code
    && w.minPort == m.minPort && w.maxPort == m.maxPort && w.count == m.count && w.extra == m.extra
    && DecodeAddress(w.family, w.port, w.address, w.scope) == Some(m.endpoint)
    && w.compactScope == CompactScope(m)
    && (w.delta == m.delta <==> -0x8000 <= m.delta < 0x8000)
  }

  lemma FieldsAreRight(m: Message)
    requires Sendable(m)
    ensures Means(ReadFields(m.kind, EndpointBytes(m), m.key, m.extra, ScopeOf(m.endpoint), CompactScope(m)), m)
  {
    var e := EndpointBytes(m);
    EndpointFields(m);
    assert e[1] == e[..4][1] && e[2] == e[..4][2] && e[3] == e[..4][3];
    RoundTrip16(m.endpoint.GetPort());
    RoundTrip16(m.minPort);
    RoundTrip16(m.maxPort);
    RoundTrip16(m.count);
    RoundTrip16(Wrapped16(m.delta));
    DeltaRoundTrip(m.delta);
    AddressRoundTrip(m.endpoint);
  }

  lemma PartsAreRead(m: Message)
    requires Sendable(m) && Proper(m)
    ensures Accepted(Encoded(m))
    ensures Read(Encoded(m)) ==
      ReadFields(m.kind, EndpointBytes(m), m.key, m.extra, ScopeOf(m.endpoint), CompactScope(m))
  {
    SentIsAccepted(m);
    HeaderIsRight(m);
    BodyIsRight(m);
    SizesAreRight(m);
    ScopesAreRight(m);
    assert ExtraSize(m.kind, |m.extra|) == |m.extra|;
  }

  /** Every proper message is read back. */
  lemma SentIsRead(m: Message)
    requires Sendable(m) && Proper(m)
    ensures Accepted(Encoded(m)) && Means(Read(Encoded(m)), m)
  {
    PartsAreRead(m);
    FieldsAreRight(m);
  }

  /** Nothing shorter than a message with a right header is accepted in its place, and nothing longer. */
  lemma NoOtherLength(b: Bytes, c: Bytes)
    requires StartsRight(b) && b != c && (c <= b || b <= c)
    ensures !Accepted(c)
  {
    if |c| >= HEADER {
      assert b[6..8] == c[6..8];
    }
  }

  /** Every strict prefix of a message is rejected. */
  lemma PrefixIsRejected(m: Message, n: nat)
    requires Sendable(m) && n < Size(m)
    ensures !Accepted(Encoded(m)[..n])
  {
    HeaderIsRight(m);
    NoOtherLength(Encoded(m), Encoded(m)[..n]);
  }

  // ------------------------------------------------------------- embedded addresses

  /** The flags of an embedded address: that it is there, and whether its port is mapped. */
  function AddressFlags(mapped: bool): bv8 {
    if mapped then 3 else 1
  }

  function CompactBytes(a: Address, mapped: bool): (r: Bytes)
    requires !a.Unspec?
    ensures |r| == 20
  {
    [Family(a), AddressFlags(mapped)] + Be16(a.GetPort()) + AddressBytes(a)
  }

  function DecodeCompact(b: Bytes, scope: bv32): Option<Address>
    requires |b| == 20
  {
    if b[1] & ADDRESS_AVAILABLE == 0 then None else DecodeAddress(b[0], Read16(b[2..4]), b[4..20], scope)
  }

  lemma CompactRoundTrip(a: Address, mapped: bool)
    requires !a.Unspec?
    ensures DecodeCompact(CompactBytes(a, mapped), ScopeOf(a)) == Some(a)
  {
    var b := CompactBytes(a, mapped);
    assert b[2..4] == Be16(a.GetPort()) && b[4..20] == AddressBytes(a);
    assert AddressFlags(mapped) & ADDRESS_AVAILABLE == 1;
    RoundTrip16(a.GetPort());
    AddressRoundTrip(a);
  }

  /** The extra data of a listener result: the result data, the listener and its mapped address. */
  function ListenerExtra(result: Bytes, listener: bv32, mapped: Address, portMapped: bool): (r: Bytes)
    requires |result| == RESULT_EXT_SIZE && !mapped.Unspec?
    ensures |r| == RESULT_LISTENER_SIZE
  {
    result + Be32(listener) + CompactBytes(mapped, portMapped)
  }

  lemma ListenerExtraParts(result: Bytes, listener: bv32, mapped: Address, portMapped: bool)
    requires |result| == RESULT_EXT_SIZE && !mapped.Unspec?
    ensures var x := ListenerExtra(result, listener, mapped, portMapped);
      && x[..RESULT_EXT_SIZE] == result && Read32(x[RESULT_EXT_SIZE..MAPPED_AT]) == listener
      && x[MAPPED_AT..] == CompactBytes(mapped, portMapped) && x[MAPPED_AT] == Family(mapped)
  {
    var x := ListenerExtra(result, listener, mapped, portMapped);
    RoundTrip32(listener);
    assert x[RESULT_EXT_SIZE..MAPPED_AT] == Be32(listener);
    assert x[MAPPED_AT..] == CompactBytes(mapped, portMapped);
    assert x[MAPPED_AT] == x[MAPPED_AT..][0];
  }

  /** A listener result brings its result data, its listener and its mapped address, scope included, to the receiver. */
  lemma ListenerResultIsRead(m: Message, result: Bytes, listener: bv32, mapped: Address, portMapped: bool)
    requires |result| == RESULT_EXT_SIZE && !mapped.Unspec? && Sendable(m) && m.kind == RESULT_LISTENER
    requires m.compact == Some(mapped) && m.extra == ListenerExtra(result, listener, mapped, portMapped)
    ensures Accepted(Encoded(m)) && Means(Read(Encoded(m)), m)
    ensures var x, scope := Read(Encoded(m)).extra, Read(Encoded(m)).compactScope;
      && |x| == RESULT_LISTENER_SIZE && x[..RESULT_EXT_SIZE] == result
      && Read32(x[RESULT_EXT_SIZE..MAPPED_AT]) == listener && DecodeCompact(x[MAPPED_AT..], scope) == Some(mapped)
  {
    ListenerExtraParts(result, listener, mapped, portMapped);
    CompactRoundTrip(mapped, portMapped);
    SentIsRead(m);
  }
}
