/**
  SHA-256, HMAC-SHA256 and HKDF-Expand.

  The source reads its input as a list of 32-byte half blocks and pads on the
  fly, with a signed count of the bytes left. Here this is proved to hash the
  padded message of section 5.1.1 of FIPS 180-4, and HMAC (section 2 of RFC
  2104) and HKDF-Expand (section 2.3 of RFC 5869) are proved on top of it.
*/
module Sha256 {

  type Bytes = seq<bv8>
  type Words = seq<bv32>

  /** A message the source can hash: its bit length fits the one 32-bit length word that is written. */
  const MAX_LENGTH: int := 0x2000_0000

  // ------------------------------------------------------------ the standard

  /** Four bytes as a word, most significant byte first. */
  function Word(b: Bytes): bv32
    requires |b| == 4
  {
    (b[0] as bv32 << 24) | (b[1] as bv32 << 16) | (b[2] as bv32 << 8) | b[3] as bv32
  }

  function WordBytes(w: bv32): (b: Bytes)
    ensures |b| == 4
  {
    [((w >> 24) & 0xff) as bv8, ((w >> 16) & 0xff) as bv8, ((w >> 8) & 0xff) as bv8, (w & 0xff) as bv8]
  }

  /** The bit length of a message of `n` bytes as eight bytes, most significant first. */
  function LengthBytes(n: nat): (b: Bytes)
    requires n < MAX_LENGTH
    ensures |b| == 8
  {
    var bits := (n as bv64) * 8;
    [((bits >> 56) & 0xff) as bv8, ((bits >> 48) & 0xff) as bv8,
     ((bits >> 40) & 0xff) as bv8, ((bits >> 32) & 0xff) as bv8,
     ((bits >> 24) & 0xff) as bv8, ((bits >> 16) & 0xff) as bv8,
     ((bits >> 8) & 0xff) as bv8, (bits & 0xff) as bv8]
  }

  function Zeros(n: nat): Bytes {
    seq(n, _ => 0)
  }

  /** The number of 64-byte blocks of the padded message: room for the message, a one-bit and the length. */
  function BlockCount(n: nat): nat {
    (n + 9 + 63) / 64
  }

  /** Section 5.1.1 of FIPS 180-4: a one-bit, zeros up to a whole number of blocks, and the bit length. */
  function Pad(m: Bytes): (p: Bytes)
    requires |m| < MAX_LENGTH
    ensures |p| == 64 * BlockCount(|m|)
  {
    m + [0x80] + Zeros(64 * BlockCount(|m|) - 9 - |m|) + LengthBytes(|m|)
  }

  /** The sixteen words of block `k`. */
  function BlockWords(p: Bytes, k: nat): (w: Words)
    requires 64 * (k + 1) <= |p|
    ensures |w| == 16 && forall i :: 0 <= i < 16 ==> w[i] == Word(p[64 * k + 4 * i..64 * k + 4 * i + 4])
  {
    seq(16, i requires 0 <= i < 16 => Word(p[64 * k + 4 * i..64 * k + 4 * i + 4]))
  }

  // ------------------------------------------------- padding while copying

  /** The byte at position `k` of the message followed by a one-bit and zeros. */
  function ByteAt(m: Bytes, k: nat): bv8 {
    if k < |m| then m[k] else if k == |m| then 0x80 else 0
  }

  function FourAt(m: Bytes, k: nat): Bytes {
    [ByteAt(m, k), ByteAt(m, k + 1), ByteAt(m, k + 2), ByteAt(m, k + 3)]
  }

  function WordAt(m: Bytes, k: nat): bv32 {
    Word(FourAt(m, k))
  }

  /** A word with `n` message bytes left, as the source assembles it. */
  function PartialWord(b: Bytes, n: int): bv32
    requires n >= 4 ==> |b| >= 4
    requires 0 < n < 4 ==> |b| >= n
  {
    if n >= 4 then Word(b[..4])
    else if n == 3 then Word([b[0], b[1], b[2], 0]) | (0x8000_0000 >> 24)
    else if n == 2 then Word([b[0], b[1], 0, 0]) | (0x8000_0000 >> 16)
    else if n == 1 then Word([b[0], 0, 0, 0]) | (0x8000_0000 >> 8)
    else if n == 0 then 0x8000_0000
    else 0
  }

  lemma PartialIsWordAt(m: Bytes, k: nat, b: Bytes)
    requires k < |m| ==> |b| >= (if |m| - k < 4 then |m| - k else 4)
    requires k < |m| ==> forall i :: 0 <= i < 4 && k + i < |m| ==> b[i] == m[k + i]
    ensures PartialWord(b, |m| - k) == WordAt(m, k)
  {
  }

  /** The length word the source writes: the byte length shifted left by three, cut to 32 bits. */
  function LengthWord(n: nat): bv32
    requires n < MAX_LENGTH
  {
    ((n as bv64 << 3) & 0xffff_ffff) as bv32
  }

  lemma ShortLength(n: nat)
    requires n < MAX_LENGTH
    ensures n as bv64 < 0x2000_0000
  {
  }

  lemma LengthBits(x: bv64)
    requires x < 0x2000_0000
    ensures ((x * 8 >> 56) & 0xff) == 0 && ((x * 8 >> 48) & 0xff) == 0 && ((x * 8 >> 40) & 0xff) == 0 &&
      ((x * 8 >> 32) & 0xff) == 0
    ensures x * 8 == x << 3
  {
  }

  /** Splitting a 32-bit value into bytes and putting them together again. */
  lemma LowWord(x: bv64)
    ensures (((x >> 24) & 0xff) as bv8 as bv32 << 24) | (((x >> 16) & 0xff) as bv8 as bv32 << 16) |
            (((x >> 8) & 0xff) as bv8 as bv32 << 8) | ((x & 0xff) as bv8 as bv32) == (x & 0xffff_ffff) as bv32
  {
  }

  /** The length field of the standard is a zero word and the word the source writes. */
  lemma LengthField(n: nat)
    requires n < MAX_LENGTH
    ensures Word(LengthBytes(n)[..4]) == 0 && Word(LengthBytes(n)[4..]) == LengthWord(n)
  {
    ShortLength(n);
    LengthBits(n as bv64);
    LowWord((n as bv64) * 8);
  }

  lemma PadByte(m: Bytes, k: nat)
    requires |m| < MAX_LENGTH && k < |Pad(m)| - 8
    ensures Pad(m)[k] == ByteAt(m, k)
  {
  }

  /** Outside the length field the padded message is what is copied with padding on the fly. */
  lemma PadFour(m: Bytes, k: nat)
    requires |m| < MAX_LENGTH && k + 4 <= |Pad(m)| - 8
    ensures Pad(m)[k..k + 4] == FourAt(m, k)
  {
    PadByte(m, k);
    PadByte(m, k + 1);
    PadByte(m, k + 2);
    PadByte(m, k + 3);
  }

  /** The words of block `k` as the source has them when it compresses the block. */
  function SourceWord(m: Bytes, k: nat, i: nat): bv32
    requires |m| < MAX_LENGTH
  {
    if i == 15 && k + 1 == BlockCount(|m|) then LengthWord(|m|) else WordAt(m, 64 * k + 4 * i)
  }

  lemma SourceWords(m: Bytes, k: nat, i: nat)
    requires |m| < MAX_LENGTH && k < BlockCount(|m|) && i < 16
    ensures BlockWords(Pad(m), k)[i] == SourceWord(m, k, i)
  {
    var p, at := Pad(m), 64 * k + 4 * i;
    if k + 1 < BlockCount(|m|) || i < 14 {
      PadFour(m, at);
    } else {
      LengthField(|m|);
      PadLength(m);
      if i == 14 { assert WordAt(m, at) == 0; }
    }
  }

  /** The padded message ends with the length. */
  lemma PadLength(m: Bytes)
    requires |m| < MAX_LENGTH
    ensures
      var p := Pad(m);
      |p| >= 8 && p[|p| - 8..|p| - 4] == LengthBytes(|m|)[..4] && p[|p| - 4..] == LengthBytes(|m|)[4..]
  {
    var p := Pad(m);
    assert p[|p| - 8..] == LengthBytes(|m|);
    assert p[|p| - 8..|p| - 4] == p[|p| - 8..][..4] && p[|p| - 4..] == p[|p| - 8..][4..];
  }

  // ------------------------------------- section 6.2.2 of FIPS 180-4, one block

  function Rotr(x: bv32, r: bv32): bv32
    requires 0 < r < 32
  {
    (x >> r) | (x << (32 - r))
  }

  const K0: Words :=
    [0x428a_2f98, 0x7137_4491, 0xb5c0_fbcf, 0xe9b5_dba5, 0x3956_c25b, 0x59f1_11f1, 0x923f_82a4, 0xab1c_5ed5]
  const K1: Words :=
    [0xd807_aa98, 0x1283_5b01, 0x2431_85be, 0x550c_7dc3, 0x72be_5d74, 0x80de_b1fe, 0x9bdc_06a7, 0xc19b_f174]
  const K2: Words :=
    [0xe49b_69c1, 0xefbe_4786, 0x0fc1_9dc6, 0x240c_a1cc, 0x2de9_2c6f, 0x4a74_84aa, 0x5cb0_a9dc, 0x76f9_88da]
  const K3: Words :=
    [0x983e_5152, 0xa831_c66d, 0xb003_27c8, 0xbf59_7fc7, 0xc6e0_0bf3, 0xd5a7_9147, 0x06ca_6351, 0x1429_2967]
  const K4: Words :=
    [0x27b7_0a85, 0x2e1b_2138, 0x4d2c_6dfc, 0x5338_0d13, 0x650a_7354, 0x766a_0abb, 0x81c2_c92e, 0x9272_2c85]
  const K5: Words :=
    [0xa2bf_e8a1, 0xa81a_664b, 0xc24b_8b70, 0xc76c_51a3, 0xd192_e819, 0xd699_0624, 0xf40e_3585, 0x106a_a070]
  const K6: Words :=
    [0x19a4_c116, 0x1e37_6c08, 0x2748_774c, 0x34b0_bcb5, 0x391c_0cb3, 0x4ed8_aa4a, 0x5b9c_ca4f, 0x682e_6ff3]
  const K7: Words :=
    [0x748f_82ee, 0x78a5_636f, 0x84c8_7814, 0x8cc7_0208, 0x90be_fffa, 0xa450_6ceb, 0xbef9_a3f7, 0xc671_78f2]

  const K: Words := K0 + K1 + K2 + K3 + K4 + K5 + K6 + K7

  const H0: Words :=
    [0x6a09_e667, 0xbb67_ae85, 0x3c6e_f372, 0xa54f_f53a, 0x510e_527f, 0x9b05_688c, 0x1f83_d9ab, 0x5be0_cd19]

  function BigSigma0(x: bv32): bv32 { Rotr(x, 2) ^ Rotr(x, 13) ^ Rotr(x, 22) }
  function BigSigma1(x: bv32): bv32 { Rotr(x, 6) ^ Rotr(x, 11) ^ Rotr(x, 25) }
  function SmallSigma0(x: bv32): bv32 { Rotr(x, 7) ^ Rotr(x, 18) ^ (x >> 3) }
  function SmallSigma1(x: bv32): bv32 { Rotr(x, 17) ^ Rotr(x, 19) ^ (x >> 10) }
  function Ch(x: bv32, y: bv32, z: bv32): bv32 { (x & y) ^ (!x & z) }
  function Maj(x: bv32, y: bv32, z: bv32): bv32 { (x & y) ^ (x & z) ^ (y & z) }

  function Add2(a: bv32, b: bv32): bv32 { a + b }
  function Add4(a: bv32, b: bv32, c: bv32, d: bv32): bv32 { a + b + c + d }
  function Add5(a: bv32, b: bv32, c: bv32, d: bv32, e: bv32): bv32 { a + b + c + d + e }

  function Mixed(a: bv32, b: bv32, c: bv32, d: bv32): bv32 {
    Add4(SmallSigma1(a), b, SmallSigma0(c), d)
  }

  /** The word of the schedule that follows the words `r`. */
  function NextWord(r: Words): bv32
    requires |r| >= 16
  {
    Mixed(r[|r| - 2], r[|r| - 7], r[|r| - 15], r[|r| - 16])
  }

  /** The first `n` words of the message schedule. */
  function Schedule(w: Words, n: nat): (r: Words)
    requires |w| == 16 && 16 <= n
    ensures |r| == n
  {
    if n == 16 then w
    else
      var r := Schedule(w, n - 1);
      r + [NextWord(r)]
  }

  /** One round on the working variables a, b, ..., h. */
  function Round(v: Words, k: bv32, w: bv32): (r: Words)
    requires |v| == 8
    ensures |r| == 8
  {
    var t1 := Add5(v[7], BigSigma1(v[4]), Ch(v[4], v[5], v[6]), k, w);
    var t2 := Add2(BigSigma0(v[0]), Maj(v[0], v[1], v[2]));
    [Add2(t1, t2), v[0], v[1], v[2], Add2(v[3], t1), v[4], v[5], v[6]]
  }

  /** The first `n` rounds with the round constants `k`. */
  function Rounds(k: Words, h: Words, w: Words, n: nat): (r: Words)
    requires |h| == 8 && |k| == |w| == 64 && n <= 64
    ensures |r| == 8
  {
    if n == 0 then h else Round(Rounds(k, h, w, n - 1), k[n - 1], w[n - 1])
  }

  function AddWords(a: Words, b: Words): (r: Words)
    requires |a| == |b|
    ensures |r| == |a| && forall i :: 0 <= i < |a| ==> r[i] == Add2(a[i], b[i])
  {
    seq(|a|, i requires 0 <= i < |a| => Add2(a[i], b[i]))
  }

  function Compress(h: Words, w: Words): (r: Words)
    requires |h| == 8 && |w| == 16
    ensures |r| == 8
  {
    AddWords(h, Rounds(K, h, Schedule(w, 64), 64))
  }

  /** The schedule loop: the words after the first sixteen are filled in in place. */
  method ExtendSchedule(w: array<bv32>)
    requires w.Length == 64
    modifies w
    ensures w[..] == Schedule(old(w[..16]), 64)
  {
    ghost var first := w[..16];
    for i := 16 to 64
      invariant w[..i] == Schedule(first, i)
    {
      assert w[i - 15] == w[..i][i - 15] && w[i - 2] == w[..i][i - 2] && w[i - 16] == w[..i][i - 16] &&
        w[i - 7] == w[..i][i - 7];
      var s0 := SmallSigma0(w[i - 15]);
      var s1 := SmallSigma1(w[i - 2]);
      ghost var done := w[..i];
      w[i] := Add4(s1, w[i - 7], s0, w[i - 16]);
      assert w[..i + 1] == done + [w[i]];
    }
    assert w[..] == w[..64];
  }

  /** One round in place: the working variables move up by one. */
  method RoundInPlace(v: array<bv32>, k: bv32, w: bv32)
    requires v.Length == 8
    modifies v
    ensures v[..] == Round(old(v[..]), k, w)
  {
    var s1 := BigSigma1(v[4]);
    var ch := Ch(v[4], v[5], v[6]);
    var temp1 := Add5(v[7], s1, ch, k, w);
    var s0 := BigSigma0(v[0]);
    var maj := Maj(v[0], v[1], v[2]);
    var temp2 := Add2(s0, maj);
    MoveUp(v, Add2(temp1, temp2), Add2(v[3], temp1));
  }

  /** The working variables move up by one, with new values for a and e. */
  method MoveUp(v: array<bv32>, a: bv32, e: bv32)
    requires v.Length == 8
    modifies v
    ensures v[..] == [a, old(v[0]), old(v[1]), old(v[2]), e, old(v[4]), old(v[5]), old(v[6])]
  {
    MoveHalf(v, 4, e);
    MoveHalf(v, 0, a);
  }

  /** Four of the working variables move up by one; the last of them is lost. */
  method MoveHalf(v: array<bv32>, at: nat, x: bv32)
    requires v.Length == 8 && (at == 0 || at == 4)
    modifies v
    ensures v[at] == x && forall i :: at < i < at + 4 ==> v[i] == old(v[i - 1])
    ensures forall i :: 0 <= i < at || at + 4 <= i < 8 ==> v[i] == old(v[i])
  {
    v[at + 3] := v[at + 2];
    v[at + 2] := v[at + 1];
    v[at + 1] := v[at];
    v[at] := x;
  }

  method AddInto(h: array<bv32>, v: array<bv32>)
    requires h.Length == 8 && v.Length == 8 && h != v
    modifies h
    ensures h[..] == AddWords(old(h[..]), v[..])
  {
    for i := 0 to 8
      invariant forall j :: 0 <= j < 8 ==> h[j] == if j < i then Add2(old(h[j]), v[j]) else old(h[j])
    {
      h[i] := Add2(h[i], v[i]);
    }
  }

  /** Compresses the block in the first sixteen words of `w` into the state `h`. */
  method CompressBlock(h: array<bv32>, w: array<bv32>)
    requires h.Length == 8 && w.Length == 64 && h != w
    modifies h, w
    ensures h[..] == Compress(old(h[..]), old(w[..16]))
  {
    ghost var h0, first := h[..], w[..16];
    ExtendSchedule(w);
    var v := new bv32[8](i requires 0 <= i < 8 reads h => h[i]);
    assert v[..] == h0;
    AllRounds(v, K, w[..]);
    AddInto(h, v);
  }

  /** The 64 rounds in place. */
  method AllRounds(v: array<bv32>, k: Words, w: Words)
    requires v.Length == 8 && |k| == |w| == 64
    modifies v
    ensures v[..] == Rounds(k, old(v[..]), w, 64)
  {
    for i := 0 to 64
      invariant v[..] == Rounds(k, old(v[..]), w, i)
    {
      RoundInPlace(v, k[i], w[i]);
    }
  }

  // ----------------------------------------------------------- whole messages

  /** The state after `k` blocks of the padded message. */
  function Digest(p: Bytes, k: nat): (h: Words)
    requires 64 * k <= |p|
    ensures |h| == 8
  {
    if k == 0 then H0 else Compress(Digest(p, k - 1), BlockWords(p, k - 1))
  }

  function ToBytes(w: Words): (b: Bytes)
    ensures |b| == 4 * |w|
  {
    if w == [] then [] else ToBytes(w[..|w| - 1]) + WordBytes(w[|w| - 1])
  }

  /** SHA-256 of a message. */
  function Hash(m: Bytes): (h: Bytes)
    requires |m| < MAX_LENGTH
    ensures |h| == 32
  {
    ToBytes(Digest(Pad(m), BlockCount(|m|)))
  }

  /** Half block `c` of a message; the last one may be incomplete. */
  function Half(m: Bytes, c: nat): Bytes
    requires 32 * c <= |m|
  {
    m[32 * c..if 32 * c + 32 <= |m| then 32 * c + 32 else |m|]
  }

  /** The input list holds the half blocks of the message. */
  ghost predicate Halves(input: seq<Bytes>, m: Bytes) {
    |input| == (|m| + 31) / 32 && forall c :: 0 <= c < |input| ==> 32 * c <= |m| && input[c] == Half(m, c)
  }

  /** Copies a half block into eight words, padding after the last byte; `left` bytes of the message are left. */
  method CopyWords(w: array<bv32>, off: nat, chunk: Bytes, left: int, ghost m: Bytes, ghost pos: nat)
    returns (left': int)
    requires off + 8 <= w.Length && left == |m| - pos
    requires left > 0 ==> chunk == m[pos..if pos + 32 <= |m| then pos + 32 else |m|]
    modifies w
    ensures left' == left - 32
    ensures forall i :: 0 <= i < w.Length ==>
      w[i] == if off <= i < off + 8 then WordAt(m, pos + 4 * (i - off)) else old(w[i])
  {
    left' := left;
    for i := 0 to 8
      invariant left' == left - 4 * i
      invariant forall j :: 0 <= j < w.Length ==>
        w[j] == if off <= j < off + i then WordAt(m, pos + 4 * (j - off)) else old(w[j])
    {
      var b := if left' > 0 then chunk[4 * i..] else [];
      PartialIsWordAt(m, pos + 4 * i, b);
      w[off + i] := PartialWord(b, left');
      left' := left' - 4;
    }
  }

  lemma BlockCountIs(n: nat, blocks: nat)
    requires blocks == BlockCount(n)
    ensures 64 * (blocks - 1) < n + 9 <= 64 * blocks
  {
  }

  /** The half blocks consumed before block `k`. */
  function Cursor(input: seq<Bytes>, k: nat): nat {
    if 2 * k < |input| then 2 * k else |input|
  }

  /** Loads the two half blocks of block `k`. */
  method LoadHalves(w: array<bv32>, input: seq<Bytes>, next: nat, left: int, ghost m: Bytes, ghost k: nat)
    returns (next': nat, left': int)
    requires w.Length == 64 && Halves(input, m) && left == |m| - 64 * k && next == Cursor(input, k)
    modifies w
    ensures left' == left - 64 && next' == Cursor(input, k + 1)
    ensures forall i :: 0 <= i < 16 ==> w[i] == WordAt(m, 64 * k + 4 * i)
  {
    next', left' := next, left;
    var block := [];
    if left' > 0 {
      block, next' := input[next'], next' + 1;
    }
    left' := CopyWords(w, 0, block, left', m, 64 * k);
    block := [];
    if left' > 0 {
      block, next' := input[next'], next' + 1;
    }
    left' := CopyWords(w, 8, block, left', m, 64 * k + 32);
  }

  /** Loads block `k`, with the length in the last one. The signed count of bytes left tells which one that is. */
  method LoadBlock(w: array<bv32>, input: seq<Bytes>, next: nat, left: int, len: nat, ghost m: Bytes, ghost k: nat)
    returns (next': nat, left': int)
    requires w.Length == 64 && len == |m| < MAX_LENGTH && Halves(input, m)
    requires k < BlockCount(len) && left == len - 64 * k && next == Cursor(input, k)
    modifies w
    ensures left' == left - 64 && next' == Cursor(input, k + 1)
    ensures w[..16] == BlockWords(Pad(m), k)
  {
    next', left' := LoadHalves(w, input, next, left, m, k);
    if left' < -8 {
      w[15] := LengthWord(len);
    }
    BlockCountIs(len, BlockCount(len));
    forall i | 0 <= i < 16 ensures w[i] == BlockWords(Pad(m), k)[i] {
      SourceWords(m, k, i);
    }
  }

  /** One turn of the hash loop; `p` is the padded message. */
  method HashBlock(h: array<bv32>, input: seq<Bytes>, next: nat, left: int, len: nat, ghost m: Bytes, ghost p: Bytes,
      ghost n: nat, ghost k: nat)
    returns (next': nat, left': int)
    requires |p| == 64 * n && k < n
    requires h.Length == 8 && len == |m| < MAX_LENGTH && Halves(input, m) && p == Pad(m)
    requires left == len - 64 * k && next == Cursor(input, k) && h[..] == Digest(p, k)
    modifies h
    ensures left' == left - 64 && next' == Cursor(input, k + 1)
    ensures h[..] == Digest(p, k + 1)
  {
    var w := new bv32[64];
    next', left' := LoadBlock(w, input, next, left, len, m, k);
    CompressBlock(h, w);
  }

  /** The hash loop over `n` blocks. */
  method HashBlocks(h: array<bv32>, input: seq<Bytes>, len: nat, ghost m: Bytes, ghost p: Bytes, ghost n: nat)
    requires |p| == 64 * n && h.Length == 8 && len == |m| < MAX_LENGTH && Halves(input, m) && p == Pad(m)
    requires 64 * (n - 1) < len + 9 <= 64 * n && h[..] == H0
    modifies h
    ensures h[..] == Digest(p, n)
  {
    var left: int, next := len, 0;
    ghost var k := 0;
    while left >= -8
      invariant k <= n && left == len - 64 * k && next == Cursor(input, k) && h[..] == Digest(p, k)
      decreases left + 72
    {
      next, left := HashBlock(h, input, next, left, len, m, p, n, k);
      k := k + 1;
    }
    assert k == n;
  }

  /** Hashes a list of half blocks. */
  method HashList(input: seq<Bytes>, len: nat, ghost m: Bytes) returns (out: Bytes)
    requires len == |m| < MAX_LENGTH && Halves(input, m)
    ensures out == Hash(m)
  {
    var h := new bv32[8](i requires 0 <= i < 8 => H0[i]);
    assert h[..] == H0;
    BlockCountIs(len, BlockCount(len));
    HashBlocks(h, input, len, m, Pad(m), BlockCount(len));
    out := ToBytes(h[..]);
  }

  /** Hashes a buffer: the list of its half blocks is built first. */
  method HashBuffer(m: Bytes) returns (out: Bytes)
    requires |m| < MAX_LENGTH
    ensures out == Hash(m)
  {
    var blocks := SplitHalves(m);
    out := HashList(blocks, |m|, m);
  }

  method SplitHalves(m: Bytes) returns (blocks: seq<Bytes>)
    ensures Halves(blocks, m)
  {
    var count := (|m| + 31) / 32;
    blocks := [];
    for i := 0 to count
      invariant |blocks| == i && forall c :: 0 <= c < i ==> 32 * c <= |m| && blocks[c] == Half(m, c)
    {
      blocks := blocks + [Half(m, i)];
    }
  }

  // ------------------------------------------------------------------- HMAC

  function XorPad(k: Bytes, pad: bv8): (r: Bytes)
    ensures |r| == |k|
  {
    seq(|k|, i requires 0 <= i < |k| => k[i] ^ pad)
  }

  /** Section 2 of RFC 2104 with a 64-byte block, for a 32-byte key that is first filled up with zeros. */
  function Hmac(key: Bytes, text: Bytes): (r: Bytes)
    requires |key| == 32 && |text| + 64 < MAX_LENGTH
    ensures |r| == 32
  {
    var k := key + Zeros(32);
    Hash(XorPad(k, 0x5c) + Hash(XorPad(k, 0x36) + text))
  }

  lemma PaddedKey(key: Bytes, pad: bv8)
    requires |key| == 32
    ensures XorPad(key + Zeros(32), pad) == XorPad(key, pad) + seq(32, _ => pad)
  {
  }

  /** Putting the two key half blocks in front of a list of half blocks. */
  lemma HalvesBehindKey(input: seq<Bytes>, text: Bytes, k1: Bytes, k2: Bytes)
    requires Halves(input, text) && |k1| == 32 && |k2| == 32
    ensures Halves([k1, k2] + input, k1 + k2 + text)
  {
    var m, all := k1 + k2 + text, [k1, k2] + input;
    forall c | 0 <= c < |all| ensures 32 * c <= |m| && all[c] == Half(m, c) {
      if c >= 2 {
        assert all[c] == Half(text, c - 2);
        assert m[64..] == text;
      }
    }
  }

  /** HMAC of a list of half blocks: the padded key is hashed in front of them, and again in front of the result. */
  method HmacList(key: Bytes, input: seq<Bytes>, len: nat, ghost text: Bytes) returns (out: Bytes)
    requires |key| == 32 && len == |text| && len + 64 < MAX_LENGTH && Halves(input, text)
    ensures out == Hmac(key, text)
  {
    var ipad, opad := XorPad(key, 0x36), XorPad(key, 0x5c);
    var ipad2: Bytes, opad2: Bytes := seq(32, _ => 0x36), seq(32, _ => 0x5c);
    PaddedKey(key, 0x36);
    PaddedKey(key, 0x5c);
    HalvesBehindKey(input, text, ipad, ipad2);
    var temp := HashList([ipad, ipad2] + input, len + 64, ipad + ipad2 + text);
    assert Halves([temp], temp) by { assert Half(temp, 0) == temp; }
    HalvesBehindKey([temp], temp, opad, opad2);
    assert [opad, opad2] + [temp] == [opad, opad2, temp];
    out := HashList([opad, opad2, temp], 96, opad + opad2 + temp);
  }

  method HmacBuffer(key: Bytes, text: Bytes) returns (out: Bytes)
    requires |key| == 32 && |text| + 64 < MAX_LENGTH
    ensures out == Hmac(key, text)
  {
    var blocks := SplitHalves(text);
    out := HmacList(key, blocks, |text|, text);
  }

  // ------------------------------------------------------------ HKDF-Expand

  /** The counter octet after `i` increments from zero. */
  function Octet(i: nat): bv8 {
    if i == 0 then 0 else Octet(i - 1) + 1
  }

  /** Up to 255 the octet is the number itself; the 8-bit counter has not wrapped. */
  lemma {:induction false} OctetIs(i: nat)
    requires i <= 255
    ensures Octet(i) as int == i
  {
    if i > 0 { OctetIs(i - 1); }
  }

  /** T(i) of section 2.3 of RFC 5869. */
  function T(prk: Bytes, info: Bytes, i: nat): (r: Bytes)
    requires |prk| == 32 && |info| + 97 < MAX_LENGTH && i <= 255
    ensures |r| == if i == 0 then 0 else 32
  {
    if i == 0 then [] else Hmac(prk, T(prk, info, i - 1) + info + [Octet(i)])
  }

  /** The output: T(1), ..., T(n). */
  function Okm(prk: Bytes, info: Bytes, n: nat): (r: seq<Bytes>)
    requires |prk| == 32 && |info| + 97 < MAX_LENGTH && n <= 255
    ensures |r| == n
  {
    if n == 0 then [] else Okm(prk, info, n - 1) + [T(prk, info, n)]
  }

  /** Fills the buffer for T(i + 1): the block T(i) in front of the info, and the counter byte counted up. */
  method NextInput(buf: array<bv8>, last: Bytes, ghost info: Bytes, ghost i: nat)
    requires buf.Length == 33 + |info| && |last| == 32 && 1 <= i < 255
    requires buf[32..32 + |info|] == info && buf[buf.Length - 1] == Octet(i)
    modifies buf
    ensures buf[..] == last + info + [Octet(i + 1)]
  {
    forall j | 0 <= j < 32 { buf[j] := last[j]; }
    assert buf[32..32 + |info|] == info;
    buf[buf.Length - 1] := buf[buf.Length - 1] + 1;
    assert buf[32..32 + |info|] == info;
  }

  method NextBlock(buf: array<bv8>, last: Bytes, prk: Bytes, ghost info: Bytes, ghost i: nat) returns (t: Bytes)
    requires |prk| == 32 && |info| + 97 < MAX_LENGTH && 1 <= i < 255 && last == T(prk, info, i)
    requires buf.Length == 33 + |info| && buf[32..32 + |info|] == info && buf[buf.Length - 1] == Octet(i)
    modifies buf
    ensures t == T(prk, info, i + 1)
    ensures buf[32..32 + |info|] == info && buf[buf.Length - 1] == Octet(i + 1)
  {
    NextInput(buf, last, info, i);
    assert buf[..][32..32 + |info|] == info;
    t := HmacBuffer(prk, buf[..]);
  }

  method FirstBlock(prk: Bytes, info: Bytes) returns (buf: array<bv8>, t: Bytes)
    requires |prk| == 32 && |info| + 97 < MAX_LENGTH
    ensures fresh(buf) && buf.Length == 33 + |info| && buf[32..32 + |info|] == info && buf[buf.Length - 1] == Octet(1)
    ensures t == T(prk, info, 1)
  {
    var len, one := 33 + |info|, Octet(1);
    buf := new bv8[len](i requires 0 <= i < len => if i < 32 then 0 else if i < len - 1 then info[i - 32] else one);
    assert buf[32..] == [] + info + [one];
    assert T(prk, info, 0) == [];
    t := HmacBuffer(prk, buf[32..]);
  }

  /**
    The expansion: one buffer of the last block, the info and a counter byte, of which the first call uses the rear
    part.
  */
  method Expand(blocks: nat, prk: Bytes, info: Bytes) returns (out: seq<Bytes>)
    requires |prk| == 32 && |info| + 97 < MAX_LENGTH && blocks <= 255
    ensures out == Okm(prk, info, blocks)
  {
    out := [];
    if blocks == 0 {
      return;
    }
    var buf, t := FirstBlock(prk, info);
    out := [t];
    assert out == Okm(prk, info, 1) by { assert Okm(prk, info, 0) == []; }
    var n := 1;
    while n < blocks
      invariant 1 <= n <= blocks && out == Okm(prk, info, n) && t == T(prk, info, n)
      invariant buf[32..32 + |info|] == info && buf[buf.Length - 1] == Octet(n)
    {
      t := NextBlock(buf, t, prk, info, n);
      out := out + [t];
      n := n + 1;
    }
  }
}
