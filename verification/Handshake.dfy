/**
 * The handshake records of src/handshake.h and src/handshake.c: writers that extend a
 * packet in place, the parser of its type-length-value records, variable-length integers
 * and the negotiation of a method through a zero-separated list of names.
 */
module Handshake {
  import opened Basics
  import opened Buffers

  type Byte = b: int | 0 <= b < 256
  const RECORD_MAX := 18
  const HEADER := 4

  // ------------------------------------------------------------- records as bytes

  type Kind = k: int | 0 <= k < 0x1_0000

  datatype Record = Record(kind: Kind, value: seq<Byte>)

  /** The low 16 bits of a number, little endian. */
  function Low16(n: nat): (r: seq<Byte>)
    ensures |r| == 2
  {
    [n % 256, n / 256 % 256]
  }

  function Head(kind: Kind, len: nat): (r: seq<Byte>)
    ensures |r| == HEADER
  {
    Low16(kind) + Low16(len)
  }

  function Encode(r: Record): seq<Byte> {
    Head(r.kind, |r.value|) + r.value
  }

  function EncodeAll(rs: seq<Record>): seq<Byte> {
    if rs == [] then [] else EncodeAll(rs[..|rs| - 1]) + Encode(rs[|rs| - 1])
  }

  // ------------------------------------------------------------- the writer

  /** The length of the records, big endian in the packet's header. */
  function LengthField(n: nat): (r: seq<Byte>)
    ensures |r| == 2
  {
    [n / 256 % 256, n % 256]
  }

  /** The number made of two bytes. */
  function Pair(lo: Byte, hi: Byte): nat {
    lo + hi * 256
  }

  lemma PairBytes(lo: Byte, hi: Byte)
    ensures Low16(Pair(lo, hi)) == [lo, hi]
  {
  }

  lemma LengthRoundTrip(n: nat)
    requires n <= 0xffff
    ensures Pair(LengthField(n)[1], LengthField(n)[0]) == n
  {
  }

  /** What the two stores of a new record's head do to the memory. */
  lemma HeadStored(m: seq<Byte>, m1: seq<Byte>, m2: seq<Byte>, length: seq<Byte>, at: nat, head: seq<Byte>)
    requires |length| == 2 && |head| == HEADER && HEADER <= at && at + HEADER <= |m|
    requires m1 == m[..2] + length + m[HEADER..] && m2 == m1[..at] + head + m1[at + HEADER..]
    ensures m2[..2] == m[..2] && m2[2..HEADER] == length && m2[HEADER..at + HEADER] == m[HEADER..at] + head
  {
    assert m1[..at][..2] == m[..2];
    assert m2[..at] == m1[..at];
    assert m2[2..HEADER] == m1[2..HEADER] == length;
    assert m1[HEADER..at] == m[HEADER..at];
    assert m2[HEADER..at] == m1[HEADER..at];
    assert m2[at..at + HEADER] == head;
  }

  lemma ValueStored(m1: seq<Byte>, m2: seq<Byte>, at: nat, value: seq<Byte>)
    requires HEADER <= at && at + |value| <= |m1| && m2 == m1[..at] + value + m1[at + |value|..]
    ensures m2[..2] == m1[..2] && m2[2..HEADER] == m1[2..HEADER]
    ensures m2[HEADER..at + |value|] == m1[HEADER..at] + value
  {
    assert m2[..at] == m1[..at];
    SliceOfSlice(m2, 0, at, 0, 2);
    SliceOfSlice(m1, 0, at, 0, 2);
    SliceOfSlice(m2, 0, at, 2, HEADER);
    SliceOfSlice(m1, 0, at, 2, HEADER);
    assert m2[HEADER..at] == m1[HEADER..at];
    assert m2[at..at + |value|] == value;
  }

  lemma EncodeMore(rs: seq<Record>, r: Record)
    ensures EncodeAll(rs + [r]) == EncodeAll(rs) + Encode(r)
  {
    assert (rs + [r])[..|rs|] == rs;
  }

  /** Where record `i` begins: each one before it takes four bytes and its value. */
  function Offset(rs: seq<Record>, i: nat): nat
    requires i <= |rs|
  {
    if i == 0 then 0 else Offset(rs, i - 1) + 4 + |rs[i - 1].value|
  }

  lemma {:induction false} OffsetOfFront(rs: seq<Record>, n: nat, i: nat)
    requires i <= n <= |rs|
    ensures Offset(rs[..n], i) == Offset(rs, i)
  {
    if i > 0 { OffsetOfFront(rs, n, i - 1); }
  }

  lemma {:induction false} OffsetIsLength(rs: seq<Record>)
    ensures |EncodeAll(rs)| == Offset(rs, |rs|)
  {
    if rs != [] {
      OffsetIsLength(rs[..|rs| - 1]);
      OffsetOfFront(rs, |rs| - 1, |rs| - 1);
    }
  }

  function Number(low: int, high: int): int {
    low + 256 * high
  }

  /** The bytes at `o`: kind and length, each least significant byte first, and the value. */
  ghost predicate OnWire(bytes: seq<Byte>, o: nat, r: Record) {
    && o + 4 + |r.value| <= |bytes| && Number(bytes[o], bytes[o + 1]) == r.kind
    && Number(bytes[o + 2], bytes[o + 3]) == |r.value| && bytes[o + 4..o + 4 + |r.value|] == r.value
  }

  lemma EncodedOnWire(front: seq<Byte>, r: Record)
    requires |r.value| <= 0xffff
    ensures OnWire(front + Encode(r), |front|, r)
  {
    var bytes, o := front + Encode(r), |front|;
    assert bytes[o..] == Head(r.kind, |r.value|) + r.value;
    assert bytes[o] == bytes[o..][0] && bytes[o + 1] == bytes[o..][1];
    assert bytes[o + 2] == bytes[o..][2] && bytes[o + 3] == bytes[o..][3];
    assert bytes[o + 4..o + 4 + |r.value|] == bytes[o..][4..4 + |r.value|];
  }

  /** Every record stands in the packet with kind, length and value where the wire format has them. */
  lemma {:induction false} RecordsOnWire(rs: seq<Record>, i: nat)
    requires i < |rs| && |rs[i].value| <= 0xffff
    ensures OnWire(EncodeAll(rs), Offset(rs, i), rs[i])
  {
    var n := |rs| - 1;
    var front := rs[..n];
    OffsetOfFront(rs, n, i);
    if i < n {
      RecordsOnWire(front, i);
      StillOnWire(EncodeAll(front), Encode(rs[n]), Offset(rs, i), rs[i]);
    } else {
      OffsetIsLength(front);
      EncodedOnWire(EncodeAll(front), rs[n]);
    }
  }

  lemma StillOnWire(bytes: seq<Byte>, more: seq<Byte>, o: nat, r: Record)
    requires OnWire(bytes, o, r)
    ensures OnWire(bytes + more, o, r)
  {
    assert (bytes + more)[o + 4..o + 4 + |r.value|] == bytes[o + 4..o + 4 + |r.value|];
  }

  /** A handshake packet: a header of four bytes and the records added to it. */
  class Packet {
    const mem: array<Byte>
    var len: nat
    ghost var records: seq<Record>

    ghost predicate Valid()
      reads this, mem
    {
      && HEADER <= len <= mem.Length <= HEADER + 0xffff
      && mem[2..HEADER] == LengthField(len - HEADER)
      && mem[HEADER..len] == EncodeAll(records)
    }

    constructor (packetType: Byte, capacity: nat)
      requires HEADER <= capacity <= HEADER + 0xffff
      ensures Valid() && fresh(mem) && records == [] && mem.Length == capacity && mem[0] == packetType && mem[1] == 0
    {
      mem := new Byte[capacity](i => if i == 0 then packetType else 0);
      len := HEADER;
      records := [];
      new;
      assert mem[2..HEADER] == LengthField(0);
    }

    /** Adds a record without a value yet: what is in the buffer behind its head. */
    method Extend(kind: Kind, n: nat) returns (at: nat)
      requires Valid() && len + HEADER + n <= mem.Length
      modifies mem, `len
      ensures at == old(len) + HEADER && len == at + n
      ensures mem[..2] == old(mem[..2]) && mem[2..HEADER] == LengthField(len - HEADER)
      ensures mem[HEADER..at] == old(mem[HEADER..len]) + Head(kind, n)
    {
      at := len + HEADER;
      LengthRoundTrip(len - HEADER);
      len := len + HEADER + n;
      var total := Pair(mem[3], mem[2]) + HEADER + n;
      assert total == len - HEADER;
      Store(mem, 2, LengthField(total));
      ghost var m1 := mem[..];
      Store(mem, at - HEADER, Head(kind, n));
      HeadStored(old(mem[..]), m1, mem[..], LengthField(total), at - HEADER, Head(kind, n));
    }

    method Add(kind: Kind, value: seq<Byte>)
      requires Valid() && len + HEADER + |value| <= mem.Length
      modifies mem, `len, `records
      ensures Valid() && records == old(records) + [Record(kind, value)] && mem[..2] == old(mem[..2])
    {
      var at := Extend(kind, |value|);
      ghost var m1 := mem[..];
      Store(mem, at, value);
      ValueStored(m1, mem[..], at, value);
      ghost var r := Record(kind, value);
      EncodeMore(records, r);
      assert m1[HEADER..at] + value == EncodeAll(records) + Encode(r);
      records := records + [r];
    }

    /** Adds a number in as few bytes as it needs, but at least one. */
    method AddUint(kind: Kind, value: nat)
      requires Valid() && value <= 0xffff_ffff && len + HEADER + |UintBytes(value)| <= mem.Length
      modifies mem, `len, `records
      ensures Valid() && mem[..2] == old(mem[..2]) && records == old(records) + [Record(kind, UintBytes(value))]
    {
      UintBytesAre(value);
      if value > 0xff_ffff {
        Add(kind, [value % 256, value / 256 % 256, value / 0x1_0000 % 256, value / 0x100_0000 % 256]);
      } else if value > 0xffff {
        Add(kind, [value % 256, value / 256 % 256, value / 0x1_0000 % 256]);
      } else if value > 0xff {
        Add(kind, [value % 256, value / 256 % 256]);
      } else {
        Add(kind, [value % 256]);
      }
    }
  }

  /** A packet is read as the records that were added to it: the last value of each known kind. */
  lemma PacketMeansRecords(p: Packet)
    requires p.Valid()
    ensures Meaning(p.mem[..p.len]) == Latest(p.records)
  {
    var bytes := p.mem[..p.len];
    assert bytes[2..HEADER] == p.mem[2..HEADER];
    assert bytes[HEADER..] == p.mem[HEADER..p.len];
    PacketRoundTrip(bytes, p.records);
  }

  /** The header of a packet gives the length of its records, most significant byte first. */
  lemma HeaderOnWire(p: Packet)
    requires p.Valid()
    ensures Number(p.mem[3], p.mem[2]) == p.len - 4
  {
    assert p.mem[2] == p.mem[2..HEADER][0] && p.mem[3] == p.mem[2..HEADER][1];
  }

  /** A number in the fewest bytes, but at least one, little endian. */
  function UintBytes(value: nat): (r: seq<Byte>) {
    if value < 256 then [value] else [value % 256] + UintBytes(value / 256)
  }

  lemma UintBytesAre(value: nat)
    requires value <= 0xffff_ffff
    ensures UintBytes(value) ==
      if value > 0xff_ffff then [value % 256, value / 256 % 256, value / 0x1_0000 % 256, value / 0x100_0000 % 256]
      else if value > 0xffff then [value % 256, value / 256 % 256, value / 0x1_0000 % 256]
      else if value > 0xff then [value % 256, value / 256 % 256]
      else [value % 256]
  {
    var v1, v2, v3 := value / 256, value / 0x1_0000, value / 0x100_0000;
    assert v1 / 256 == v2 && v2 / 256 == v3 && v3 < 256;
    assert UintBytes(v3) == [v3];
    assert UintBytes(v2) == if v2 < 256 then [v2] else [v2 % 256, v3];
    assert UintBytes(v1) == if v1 < 256 then [v1] else [v1 % 256] + UintBytes(v2);
  }

  /** Numbers come back from their bytes, and no shorter value would do. */
  lemma UintRoundTrip(value: nat)
    requires value <= 0xffff_ffff
    ensures |UintBytes(value)| <= 4 && AsUint(UintBytes(value)) == value
    ensures forall v: seq<Byte> :: 0 < |v| < |UintBytes(value)| ==> AsUint(v) != value
  {
    UintBytesAre(value);
  }

  /** A record's value as a number, little endian. */
  function AsUint(v: seq<Byte>): (n: nat)
    ensures n <= 0xffff_ffff
    ensures |v| <= 3 ==>
      n < if |v| == 0 then 1 else if |v| == 1 then 0x100 else if |v| == 2 then 0x1_0000 else 0x100_0000
  {
    match |v|
    case 0 => 0
    case 1 => v[0]
    case 2 => Pair(v[0], v[1])
    case 3 => Pair(v[0], v[1]) + 0x1_0000 * (v[2] as int)
    case 4 => Pair(v[0], v[1]) + 0x1_0000 * (v[2] as int) + 0x100_0000 * (v[3] as int)
    case _ => 0xffff_ffff
  }

  // ------------------------------------------------------------- the parser

  /** The size of the first record, by its own account. */
  function FirstSize(tlv: seq<Byte>): nat
    requires |tlv| >= HEADER
  {
    HEADER + Pair(tlv[2], tlv[3])
  }

  /** Whether the bytes start with a whole record. */
  predicate Starts(tlv: seq<Byte>) {
    |tlv| >= HEADER && FirstSize(tlv) <= |tlv|
  }

  function First(tlv: seq<Byte>): Record
    requires Starts(tlv)
  {
    Record(Pair(tlv[0], tlv[1]), tlv[HEADER..FirstSize(tlv)])
  }

  /** The records the bytes hold, up to the first that is not whole. */
  function Records(tlv: seq<Byte>): seq<Record> {
    if Starts(tlv) then [First(tlv)] + Records(tlv[FirstSize(tlv)..]) else []
  }

  /** Notes a record's value if its kind is known. */
  function Noted(found: map<Kind, seq<Byte>>, r: Record): map<Kind, seq<Byte>> {
    if r.kind < RECORD_MAX then found[r.kind := r.value] else found
  }

  /** The values found, replaced by those of the records in turn. */
  function Updated(found: map<Kind, seq<Byte>>, rs: seq<Record>): map<Kind, seq<Byte>>
    decreases rs
  {
    if rs == [] then found else Updated(Noted(found, rs[0]), rs[1..])
  }

  lemma UpdatedFirst(found: map<Kind, seq<Byte>>, first: Record, rs: seq<Record>)
    ensures Updated(found, [first] + rs) == Updated(Noted(found, first), rs)
  {
    assert ([first] + rs)[1..] == rs;
  }

  /** The last value of each known kind. */
  function Latest(rs: seq<Record>): map<Kind, seq<Byte>> {
    Updated(map[], rs)
  }

  /** What a received packet says: nothing if it is shorter than its header claims. */
  function Meaning(packet: seq<Byte>): map<Kind, seq<Byte>> {
    if |packet| < HEADER || |packet| < HEADER + Pair(packet[3], packet[2]) then map[]
    else Latest(Records(packet[HEADER..HEADER + Pair(packet[3], packet[2])]))
  }

  /** The record at a position, and where the next one is. */
  lemma RecordAt(packet: seq<Byte>, ptr: nat, end: nat, len: nat)
    requires ptr + HEADER + len <= end <= |packet| && len == Pair(packet[ptr + 2], packet[ptr + 3])
    ensures var r := Record(Pair(packet[ptr], packet[ptr + 1]), packet[ptr + HEADER..ptr + HEADER + len]);
      Records(packet[ptr..end]) == [r] + Records(packet[ptr + HEADER + len..end])
  {
    RecordIn(packet, ptr, end, len);
  }

  lemma RecordIn(packet: seq<Byte>, ptr: nat, end: nat, len: nat)
    requires ptr + HEADER + len <= end <= |packet| && len == Pair(packet[ptr + 2], packet[ptr + 3])
    ensures
      var rest := packet[ptr..end];
      && Starts(rest)
      && First(rest) == Record(Pair(packet[ptr], packet[ptr + 1]), packet[ptr + HEADER..ptr + HEADER + len])
      && rest[FirstSize(rest)..] == packet[ptr + HEADER + len..end]
  {
    var rest := packet[ptr..end];
    assert rest[0] == packet[ptr] && rest[1] == packet[ptr + 1] && rest[2] == packet[ptr + 2] &&
      rest[3] == packet[ptr + 3];
    SliceOfSlice(packet, ptr, end, HEADER, HEADER + len);
    SliceOfSlice(packet, ptr, end, HEADER + len, end - ptr);
    assert rest[HEADER + len..] == rest[HEADER + len..end - ptr];
  }

  lemma NoRecordAt(packet: seq<Byte>, ptr: nat, end: nat)
    requires ptr <= end <= |packet|
    requires ptr + HEADER > end || ptr + HEADER + Pair(packet[ptr + 2], packet[ptr + 3]) > end
    ensures Records(packet[ptr..end]) == []
  {
    var rest := packet[ptr..end];
    assert |rest| >= HEADER ==> rest[2] == packet[ptr + 2] && rest[3] == packet[ptr + 3];
  }

  /** Reading a record leaves the meaning of what is read and what is still to be read as it is. */
  lemma ReadOne(found: map<Kind, seq<Byte>>, packet: seq<Byte>, ptr: nat, end: nat, len: nat)
    requires ptr + HEADER + len <= end <= |packet| && len == Pair(packet[ptr + 2], packet[ptr + 3])
    ensures
      var r := Record(Pair(packet[ptr], packet[ptr + 1]), packet[ptr + HEADER..ptr + HEADER + len]);
      Updated(found, Records(packet[ptr..end])) == Updated(Noted(found, r), Records(packet[ptr + HEADER + len..end]))
  {
    var r := Record(Pair(packet[ptr], packet[ptr + 1]), packet[ptr + HEADER..ptr + HEADER + len]);
    RecordAt(packet, ptr, end, len);
    UpdatedFirst(found, r, Records(packet[ptr + HEADER + len..end]));
  }

  method ParseTlvs(packet: seq<Byte>) returns (records: map<Kind, seq<Byte>>)
    ensures records == Meaning(packet)
  {
    records := map[];
    if |packet| < HEADER {
      return;
    }
    var length := Pair(packet[3], packet[2]);
    if |packet| < HEADER + length {
      return;
    }
    records := ParseRecords(packet, HEADER + length);
  }

  /** The parser's loop: it stops at the first record that is not whole. */
  method ParseRecords(packet: seq<Byte>, end: nat) returns (records: map<Kind, seq<Byte>>)
    requires HEADER <= end <= |packet|
    ensures records == Latest(Records(packet[HEADER..end]))
  {
    ghost var meaning := Latest(Records(packet[HEADER..end]));
    records := map[];
    var ptr := HEADER;
    while true
      invariant HEADER <= ptr <= end
      invariant Updated(records, Records(packet[ptr..end])) == meaning
      decreases end - ptr
    {
      if ptr + HEADER > end {
        break;
      }
      var kind := Pair(packet[ptr], packet[ptr + 1]);
      var len := Pair(packet[ptr + 2], packet[ptr + 3]);
      if ptr + HEADER + len > end {
        break;
      }
      var value := packet[ptr + HEADER..ptr + HEADER + len];
      ReadOne(records, packet, ptr, end, len);
      if kind < RECORD_MAX {
        records := records[kind := value];
      }
      ptr := ptr + HEADER + len;
    }
    NoRecordAt(packet, ptr, end);
  }

  // ------------------------------------------------------------- what is written is read

  /** Every record's length fits its field. */
  ghost predicate Fits(rs: seq<Record>) {
    forall i :: 0 <= i < |rs| ==> |rs[i].value| <= 0xffff
  }

  /** A record in front of other bytes is read back, and the rest is left. */
  lemma FirstOf(r: Record, rest: seq<Byte>)
    requires |r.value| <= 0xffff
    ensures var tlv := Encode(r) + rest;
      Starts(tlv) && First(tlv) == r && tlv[FirstSize(tlv)..] == rest
  {
    var tlv, n := Encode(r) + rest, |r.value|;
    var kind, len := Low16(r.kind), Low16(n);
    assert tlv == kind + len + r.value + rest;
    assert tlv[0] == kind[0] && tlv[1] == kind[1] && tlv[2] == len[0] && tlv[3] == len[1];
    LengthRoundTrip(r.kind);
    LengthRoundTrip(n);
    assert tlv[HEADER..HEADER + n] == r.value && tlv[HEADER + n..] == rest;
  }

  lemma {:induction false} EncodeFront(rs: seq<Record>)
    requires rs != []
    ensures EncodeAll(rs) == Encode(rs[0]) + EncodeAll(rs[1..])
  {
    if |rs| > 1 {
      EncodeFront(rs[..|rs| - 1]);
      assert rs[..|rs| - 1][1..] == rs[1..][..|rs[1..]| - 1];
      assert rs[|rs| - 1] == rs[1..][|rs[1..]| - 1];
    } else {
      assert rs[..0] == [] && rs[1..] == [];
    }
  }

  /** Any sequence of records is read back from its bytes. */
  lemma {:induction false} RecordsRoundTrip(rs: seq<Record>)
    requires Fits(rs)
    ensures Records(EncodeAll(rs)) == rs
  {
    if rs != [] {
      EncodeFront(rs);
      FirstOf(rs[0], EncodeAll(rs[1..]));
      RecordsRoundTrip(rs[1..]);
    }
  }

  /** Bytes that start with a record are that record and what follows it. */
  lemma FirstIsEncoded(tlv: seq<Byte>)
    requires Starts(tlv)
    ensures |First(tlv).value| <= 0xffff && tlv == Encode(First(tlv)) + tlv[FirstSize(tlv)..]
  {
    var r := First(tlv);
    PairBytes(tlv[0], tlv[1]);
    PairBytes(tlv[2], tlv[3]);
    assert Head(r.kind, |r.value|) == [tlv[0], tlv[1]] + [tlv[2], tlv[3]] == tlv[..HEADER];
    assert tlv == tlv[..HEADER] + tlv[HEADER..FirstSize(tlv)] + tlv[FirstSize(tlv)..];
  }

  /**
   * Reading loses nothing but an unfinished end: any bytes are the records read from them and a rest that holds
   * none.
   */
  lemma {:induction false} RecordsAreTheBytes(tlv: seq<Byte>)
    ensures var rs := Records(tlv);
      Fits(rs) && EncodeAll(rs) <= tlv && !Starts(tlv[|EncodeAll(rs)|..])
  {
    if Starts(tlv) {
      var r, rest := First(tlv), tlv[FirstSize(tlv)..];
      RecordsAreTheBytes(rest);
      FirstIsEncoded(tlv);
      var rs, more := Records(tlv), EncodeAll(Records(rest));
      assert rs == [r] + Records(rest) && rs[1..] == Records(rest);
      EncodeFront(rs);
      assert EncodeAll(rs) == Encode(r) + more;
      assert tlv[|EncodeAll(rs)|..] == rest[|more|..];
    } else {
      assert tlv[0..] == tlv;
    }
  }

  ghost predicate IsLast(rs: seq<Record>, kind: Kind, i: nat) {
    i < |rs| && rs[i].kind == kind && forall j :: i < j < |rs| ==> rs[j].kind != kind
  }

  lemma {:induction false} UpdatedIsLast(found: map<Kind, seq<Byte>>, rs: seq<Record>, kind: Kind, i: nat)
    requires IsLast(rs, kind, i) && kind < RECORD_MAX
    ensures kind in Updated(found, rs) && Updated(found, rs)[kind] == rs[i].value
    decreases rs
  {
    if i > 0 {
      assert rs[1..][i - 1] == rs[i];
      UpdatedIsLast(Noted(found, rs[0]), rs[1..], kind, i - 1);
    } else {
      NotUpdated(Noted(found, rs[0]), rs[1..], kind);
    }
  }

  lemma {:induction false} NotUpdated(found: map<Kind, seq<Byte>>, rs: seq<Record>, kind: Kind)
    requires kind >= RECORD_MAX || forall i :: 0 <= i < |rs| ==> rs[i].kind != kind
    ensures kind in Updated(found, rs) <==> kind in found
    ensures kind in found ==> Updated(found, rs)[kind] == found[kind]
    decreases rs
  {
    if rs != [] {
      NotUpdated(Noted(found, rs[0]), rs[1..], kind);
    }
  }

  /** The value of a kind is that of its last record, and only known kinds that occur have one. */
  lemma LatestIsLast(rs: seq<Record>, kind: Kind)
    ensures forall i: nat :: IsLast(rs, kind, i) && kind < RECORD_MAX ==>
      kind in Latest(rs) && Latest(rs)[kind] == rs[i].value
    ensures kind >= RECORD_MAX || (forall i :: 0 <= i < |rs| ==> rs[i].kind != kind) ==> kind !in Latest(rs)
  {
    forall i: nat | IsLast(rs, kind, i) && kind < RECORD_MAX
      ensures kind in Latest(rs) && Latest(rs)[kind] == rs[i].value
    {
      UpdatedIsLast(map[], rs, kind, i);
    }
    if kind >= RECORD_MAX || forall i :: 0 <= i < |rs| ==> rs[i].kind != kind {
      NotUpdated(map[], rs, kind);
    }
  }

  lemma {:induction false} SmallRecords(rs: seq<Record>, i: nat)
    requires i < |rs|
    ensures |rs[i].value| <= |EncodeAll(rs)|
  {
    if i < |rs| - 1 { SmallRecords(rs[..|rs| - 1], i); }
  }

  /** What is parsed from a packet is, for each known kind, the value that was added last. */
  lemma PacketRoundTrip(packet: seq<Byte>, rs: seq<Record>)
    requires HEADER <= |packet| <= HEADER + 0xffff
    requires packet[2..HEADER] == LengthField(|packet| - HEADER) && packet[HEADER..] == EncodeAll(rs)
    ensures Meaning(packet) == Latest(rs)
  {
    LengthRoundTrip(|packet| - HEADER);
    assert packet[2] == packet[2..HEADER][0] && packet[3] == packet[2..HEADER][1];
    forall i | 0 <= i < |rs|
      ensures |rs[i].value| <= 0xffff
    {
      SmallRecords(rs, i);
    }
    RecordsRoundTrip(rs);
    assert packet[HEADER..|packet|] == packet[HEADER..];
  }

  // ------------------------------------------------------------- lists of names

  type Name = seq<Byte>

  /** The names are strings: bytes without a zero. */
  ghost predicate Strings(names: seq<Name>) {
    forall i :: 0 <= i < |names| ==> 0 !in names[i]
  }

  /** The names, each with its terminator. */
  function Terminated(names: seq<Name>): seq<Byte> {
    if names == [] then [] else Terminated(names[..|names| - 1]) + names[|names| - 1] + [0]
  }

  /** The names with zeros between them. */
  function Joined(names: seq<Name>): seq<Byte>
    requires names != []
  {
    Terminated(names[..|names| - 1]) + names[|names| - 1]
  }

  function Total(names: seq<Name>): (n: nat)
    ensures n == |Terminated(names)|
  {
    if names == [] then 0 else Total(names[..|names| - 1]) + |names[|names| - 1]| + 1
  }

  lemma {:induction false} TotalGrows(names: seq<Name>, i: nat)
    requires i <= |names|
    ensures |Terminated(names[..i])| <= |Terminated(names)|
  {
    if i < |names| {
      TotalGrows(names[..|names| - 1], i);
      assert names[..|names| - 1][..i] == names[..i];
    } else {
      assert names[..i] == names;
    }
  }

  /** The zero-separated list in a buffer that also has room for the last terminator. */
  method CreateMethodList(names: seq<Name>) returns (list: array<Byte>, len: nat)
    requires names != []
    ensures len < list.Length && list[..len] == Joined(names)
  {
    var total := 0;
    for i := 0 to |names|
      invariant total == Total(names[..i])
    {
      assert names[..i + 1][..i] == names[..i];
      total := total + |names[i]| + 1;
    }
    assert names[..|names|] == names;
    list := new Byte[total](_ => 0);
    len := total - 1;
    FillList(list, names);
    assert list[..len] == list[..][..len];
  }

  /** Writes each name with its terminator behind the one before. */
  method FillList(list: array<Byte>, names: seq<Name>)
    requires list.Length == |Terminated(names)|
    modifies list
    ensures list[..] == Terminated(names)
  {
    var at := 0;
    for i := 0 to |names|
      invariant at == |Terminated(names[..i])| <= list.Length
      invariant list[..at] == Terminated(names[..i])
    {
      assert names[..i + 1][..i] == names[..i];
      TotalGrows(names, i + 1);
      Store(list, at, names[i] + [0]);
      assert list[..at + |names[i]| + 1] == list[..][..at + |names[i]| + 1];
      at := at + |names[i]| + 1;
    }
    assert names[..|names|] == names && list[..at] == list[..];
  }

  /** Where the string that starts at an offset ends: at a zero or the end of the bytes. */
  function StringEnd(data: seq<Byte>, at: nat): (n: nat)
    requires at <= |data|
    ensures at <= n <= |data| && (forall i :: at <= i < n ==> data[i] != 0) && (n < |data| ==> data[n] == 0)
    decreases |data| - at
  {
    if at == |data| || data[at] == 0 then at else StringEnd(data, at + 1)
  }

  /** The strings in the bytes from an offset on, in order; the last one may have no terminator. */
  function PartsFrom(data: seq<Byte>, at: nat): seq<Name>
    decreases |data| - at
  {
    if at >= |data| then []
    else
      var end := StringEnd(data, at);
      [data[at..end]] + PartsFrom(data, end + 1)
  }

  function Parts(data: seq<Byte>): seq<Name> {
    PartsFrom(data, 0)
  }

  function Reversed(names: seq<Name>): (r: seq<Name>)
    ensures |r| == |names| && forall i :: 0 <= i < |names| ==> r[i] == names[|names| - 1 - i]
  {
    seq(|names|, i requires 0 <= i < |names| => names[|names| - 1 - i])
  }

  /** The stack after pushing names on it in turn. */
  function Pushed(stack: seq<Name>, names: seq<Name>): seq<Name>
    decreases names
  {
    if names == [] then stack else Pushed([names[0]] + stack, names[1..])
  }

  lemma PushedFirst(stack: seq<Name>, first: Name, names: seq<Name>)
    ensures Pushed(stack, [first] + names) == Pushed([first] + stack, names)
  {
    assert ([first] + names)[1..] == names;
  }

  lemma {:induction false} PushedReverses(stack: seq<Name>, names: seq<Name>)
    ensures Pushed(stack, names) == Reversed(names) + stack
    decreases names
  {
    if names != [] {
      PushedReverses([names[0]] + stack, names[1..]);
      assert Reversed(names[1..]) + ([names[0]] + stack) == Reversed(names) + stack;
    }
  }

  lemma AllPushed(data: seq<Byte>)
    ensures Pushed([], Parts(data)) == Reversed(Parts(data))
  {
    PushedReverses([], Parts(data));
    assert Reversed(Parts(data)) + [] == Reversed(Parts(data));
  }

  /** Pushes the strings on a stack, so that the last one is on top. */
  method ParseStringList(data: seq<Byte>) returns (stack: seq<Name>)
    ensures stack == Reversed(Parts(data))
  {
    AllPushed(data);
    ghost var result := Reversed(Parts(data));
    stack := [];
    var at := 0;
    while at < |data|
      invariant Pushed(stack, PartsFrom(data, at)) == result
    {
      var end := StringEnd(data, at);
      PushedFirst(stack, data[at..end], PartsFrom(data, end + 1));
      stack := [data[at..end]] + stack;
      at := end + 1;
    }
  }

  /** The bytes end with `rest`, which starts at k. */
  ghost predicate EndsWith(data: seq<Byte>, k: nat, rest: seq<Byte>) {
    |data| == k + |rest| && forall i :: 0 <= i < |rest| ==> data[k + i] == rest[i]
  }

  lemma {:induction false} EndShift(data: seq<Byte>, k: nat, rest: seq<Byte>, i: nat)
    requires EndsWith(data, k, rest) && i <= |rest|
    ensures StringEnd(data, k + i) == k + StringEnd(rest, i)
    ensures data[k + i..StringEnd(data, k + i)] == rest[i..StringEnd(rest, i)]
    decreases |rest| - i
  {
    if i < |rest| && rest[i] != 0 { EndShift(data, k, rest, i + 1); }
  }

  /** The strings behind a part of the bytes do not depend on it. */
  lemma {:induction false} PartsShift(data: seq<Byte>, k: nat, rest: seq<Byte>, i: nat)
    requires EndsWith(data, k, rest)
    ensures PartsFrom(data, k + i) == PartsFrom(rest, i)
    decreases |rest| - i
  {
    if i < |rest| {
      EndShift(data, k, rest, i);
      PartsShift(data, k, rest, StringEnd(rest, i) + 1);
    }
  }

  /** A terminated name in front of other bytes is read first. */
  lemma PartsFront(name: Name, rest: seq<Byte>)
    requires 0 !in name
    ensures Parts(name + [0] + rest) == [name] + Parts(rest)
  {
    var data := name + [0] + rest;
    NameEnds(name, data);
    assert EndsWith(data, |name| + 1, rest);
    PartsShift(data, |name| + 1, rest, 0);
  }

  lemma NameEnds(name: Name, data: seq<Byte>)
    requires 0 !in name && name + [0] <= data
    ensures StringEnd(data, 0) == |name| && data[..|name|] == name
  {
    assert data[|name|] == (name + [0])[|name|];
    assert forall i :: 0 <= i < |name| ==> data[i] == (name + [0])[i] == name[i] && name[i] in name;
  }

  lemma PartsLast(name: Name)
    requires 0 !in name
    ensures Parts(name) == if name == [] then [] else [name]
  {
    if name != [] {
      assert StringEnd(name, 0) == |name| && name[..|name|] == name;
      assert PartsFrom(name, |name| + 1) == [];
    }
  }

  lemma {:induction false} TerminatedFront(names: seq<Name>)
    requires names != []
    ensures Terminated(names) == names[0] + [0] + Terminated(names[1..])
  {
    if |names| > 1 {
      TerminatedFront(names[..|names| - 1]);
      assert names[..|names| - 1][1..] == names[1..][..|names[1..]| - 1];
      assert names[|names| - 1] == names[1..][|names[1..]| - 1];
    } else {
      assert names[..0] == [] && names[1..] == [];
    }
  }

  lemma JoinedFront(names: seq<Name>)
    requires |names| > 1
    ensures Joined(names) == names[0] + [0] + Joined(names[1..])
  {
    TerminatedFront(names[..|names| - 1]);
    assert names[..|names| - 1][1..] == names[1..][..|names[1..]| - 1];
    assert names[|names| - 1] == names[1..][|names[1..]| - 1];
  }

  /** A list of names is read back, except that an empty name at its end is lost. */
  lemma {:induction false} PartsOfJoined(names: seq<Name>)
    requires names != [] && Strings(names)
    ensures Parts(Joined(names)) == if names[|names| - 1] == [] then names[..|names| - 1] else names
  {
    if |names| == 1 {
      assert Joined(names) == names[0] && names == [names[0]];
      PartsLast(names[0]);
    } else {
      JoinedFront(names);
      PartsFront(names[0], Joined(names[1..]));
      PartsOfJoined(names[1..]);
      assert names == [names[0]] + names[1..];
      assert names[..|names| - 1] == [names[0]] + names[1..][..|names[1..]| - 1];
    }
  }

  // ------------------------------------------------------------- negotiation

  /** The first of the names that is supported. */
  function FirstSupported(names: seq<Name>, methods: seq<Name>): Option<Name> {
    if names == [] then None
    else if names[0] in methods then Some(names[0])
    else FirstSupported(names[1..], methods)
  }

  lemma {:induction false} FirstSupportedPrefix(names: seq<Name>, n: Name, methods: seq<Name>)
    ensures FirstSupported(names + [n], methods) ==
      if FirstSupported(names, methods).Some? then FirstSupported(names, methods)
      else if n in methods then Some(n) else None
  {
    if names != [] {
      assert (names + [n])[1..] == names[1..] + [n];
      FirstSupportedPrefix(names[1..], n, methods);
    } else {
      assert [n][1..] == [];
    }
  }

  /** The loop keeps the last supported name of the stack, which is the first of the list. */
  method GetMethodByNameList(methods: seq<Name>, list: Option<seq<Byte>>) returns (choice: Option<Name>)
    ensures choice == if list.None? then None else FirstSupported(Parts(list.value), methods)
  {
    if list.None? || list.value == [] {
      return None;
    }
    ghost var parts := Parts(list.value);
    var stack := ParseStringList(list.value);
    choice := None;
    for i := 0 to |stack|
      invariant choice == FirstSupported(parts[|parts| - i..], methods)
    {
      assert parts[|parts| - i - 1..] == [stack[i]] + parts[|parts| - i..];
      if stack[i] in methods {
        choice := Some(stack[i]);
      }
    }
    assert parts[0..] == parts;
  }

  /**
   * Both sides together: of the names a sender offers, the receiver takes the first it supports, in the sender's
   * order. An empty name at the end of the offer is the only one that is not seen.
   */
  method Negotiate(offer: seq<Name>, methods: seq<Name>) returns (choice: Option<Name>)
    requires offer != [] && Strings(offer)
    ensures offer[|offer| - 1] != [] ==> choice == FirstSupported(offer, methods)
    ensures [] !in methods ==> choice == FirstSupported(offer, methods)
  {
    var list, len := CreateMethodList(offer);
    choice := GetMethodByNameList(methods, Some(list[..len]));
    PartsOfJoined(offer);
    if offer[|offer| - 1] == [] {
      assert offer == offer[..|offer| - 1] + [offer[|offer| - 1]];
      FirstSupportedPrefix(offer[..|offer| - 1], offer[|offer| - 1], methods);
    }
  }

  /** The i-th name is supported and none before it is. */
  ghost predicate IsFirst(names: seq<Name>, methods: seq<Name>, i: nat) {
    i < |names| && names[i] in methods && forall j :: 0 <= j < i ==> names[j] !in methods
  }

  /** The selected method is offered and supported, and nothing offered before it is supported. */
  lemma {:induction false} FirstSupportedIsFirst(names: seq<Name>, methods: seq<Name>)
    ensures var m := FirstSupported(names, methods);
      if m.None? then forall n :: n in names ==> n !in methods
      else exists i: nat :: IsFirst(names, methods, i) && names[i] == m.value
  {
    if names != [] {
      FirstSupportedIsFirst(names[1..], methods);
      var m := FirstSupported(names, methods);
      if names[0] in methods {
        assert IsFirst(names, methods, 0);
      } else if m.Some? {
        var i: nat :| IsFirst(names[1..], methods, i) && names[1..][i] == m.value;
        assert forall j :: 0 < j < i + 1 ==> names[j] == names[1..][j - 1];
        assert IsFirst(names, methods, i + 1);
      }
    }
  }
}
