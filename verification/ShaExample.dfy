/**
  The example of appendix B.1 of FIPS 180-2, the hash of "abc".

  The constants are the message schedule, eight words at a time, and the working variables after every eight rounds.
*/
module ShaExample {
  import opened Sha256

  const W0: Words :=
    [0x6162_6380, 0x0000_0000, 0x0000_0000, 0x0000_0000, 0x0000_0000, 0x0000_0000, 0x0000_0000, 0x0000_0000]
  const W1: Words :=
    [0x0000_0000, 0x0000_0000, 0x0000_0000, 0x0000_0000, 0x0000_0000, 0x0000_0000, 0x0000_0000, 0x0000_0018]
  const W2: Words :=
    [0x6162_6380, 0x000f_0000, 0x7da8_6405, 0x6000_03c6, 0x3e9d_7b78, 0x0183_fc00, 0x12dc_bfdb, 0xe2e2_c38e]
  const W3: Words :=
    [0xc821_5c1a, 0xb736_79a2, 0xe5bc_3909, 0x3266_3c5b, 0x9d20_9d67, 0xec87_26cb, 0x7021_38a4, 0xd3b7_973b]
  const W4: Words :=
    [0x93f5_997f, 0x3b68_ba73, 0xaff4_ffc1, 0xf10a_5c62, 0x0a8b_3996, 0x72af_830a, 0x9409_e33e, 0x2464_1522]
  const W5: Words :=
    [0x9f47_bf94, 0xf0a6_4f5a, 0x3e24_6a79, 0x2733_3ba3, 0x0c47_63f2, 0x840a_bf27, 0x7a29_0d5d, 0x065c_43da]
  const W6: Words :=
    [0xfb3e_89cb, 0xcc76_17db, 0xb9e6_6c34, 0xa999_3667, 0x84ba_dedd, 0xc214_62bc, 0x1487_472c, 0xb20f_7a99]
  const W7: Words :=
    [0xef57_b9cd, 0xebe6_b238, 0x9fe3_095e, 0x78bc_8d4b, 0xa43f_cf15, 0x668b_2ff8, 0xeeab_a2cc, 0x12b1_edeb]

  const V1: Words :=
    [0x85a0_7b5f, 0xe503_0380, 0x2b42_09f5, 0x0440_9a6a, 0x0c65_7a79, 0x9b27_a401, 0x7142_60ad, 0x43ad_a245]
  const V2: Words :=
    [0xb0fa_238e, 0xc064_5fde, 0xd932_eb16, 0x8791_2990, 0x0759_0dcd, 0x0b92_f20c, 0x745a_48de, 0x1e57_8218]
  const V3: Words :=
    [0xc5d5_3d8d, 0xa7a3_623f, 0xc260_6d6d, 0x9dc6_8b63, 0xaa47_c347, 0x49f5_114a, 0xe125_7970, 0x8ada_8930]
  const V4: Words :=
    [0x73b3_3bf5, 0xea99_2a22, 0xa006_0b30, 0x3634_82c9, 0xba59_1112, 0x0109_ab3a, 0xade7_9437, 0x6112_a3b7]
  const V5: Words :=
    [0x79ea_687a, 0x6dc5_7a8a, 0x34df_1604, 0x41a6_5cb1, 0x1efb_c0a0, 0xf078_1bc8, 0xa507_a53d, 0x0772_a26b]
  const V6: Words :=
    [0x4172_328d, 0xa14c_14b0, 0x72ab_4b91, 0x2662_8815, 0xfecf_0bc6, 0xd57b_94a9, 0xb775_5da1, 0xa80f_11f0]
  const V7: Words :=
    [0x38cc_9913, 0x3ec4_5cdb, 0xf570_2fdb, 0x101f_d28f, 0x54cb_266b, 0xe50e_1b4f, 0x9f47_87c3, 0x529e_7d00]
  const V8: Words :=
    [0x506e_3058, 0xd39a_2165, 0x04d2_4d6c, 0xb85e_2ce9, 0x5ef5_0f24, 0xfb12_1210, 0x948d_25b6, 0x961f_4894]

  const W: Words := W0 + W1 + W2 + W3 + W4 + W5 + W6 + W7

  // --------------------------------------------------------------- the schedule

  /** A word of three rows. */
  function Pick(a: Words, b: Words, c: Words, i: nat): bv32
    requires |a| == |b| == |c| == 8 && i < 24
  {
    if i < 8 then a[i] else if i < 16 then b[i - 8] else c[i - 16]
  }

  predicate FollowsAt(a: Words, b: Words, c: Words, j: nat)
    requires |a| == |b| == |c| == 8 && j < 8
  {
    c[j] == Mixed(Pick(a, b, c, 14 + j), Pick(a, b, c, 9 + j), Pick(a, b, c, 1 + j), Pick(a, b, c, j))
  }

  /** The third row is the continuation of the first two. */
  ghost predicate Follows(a: Words, b: Words, c: Words) {
    |a| == |b| == |c| == 8 && forall j :: 0 <= j < 8 ==> FollowsAt(a, b, c, j)
  }

  function Next(): Words -> bv32 {
    (r: Words) => if |r| < 16 then 0 else NextWord(r)
  }

  /** One more element, `next` of all before it. */
  ghost predicate Appends(sched: nat -> Words, next: Words -> bv32, m: nat) {
    sched(m + 1) == sched(m) + [next(sched(m))]
  }

  lemma {:induction false} Grows(sched: nat -> Words, next: Words -> bv32, c: Words, at: nat, n: nat)
    requires n <= |c| && forall m: nat :: at <= m < at + |c| ==> Appends(sched, next, m)
    requires forall j :: 0 <= j < |c| ==> next(sched(at) + c[..j]) == c[j]
    ensures sched(at + n) == sched(at) + c[..n]
  {
    if n > 0 {
      Grows(sched, next, c, at, n - 1);
      assert Appends(sched, next, at + n - 1);
      assert c[..n] == c[..n - 1] + [c[n - 1]];
    }
  }

  function Sequence(s: Words): nat -> Words
    requires |s| == 16
  {
    (m: nat) => if m < 16 then [] else Schedule(s, m)
  }

  lemma MoreWords(s: Words, a: Words, b: Words, c: Words, at: nat)
    requires |s| == 16 && at >= 16 && Follows(a, b, c) && Schedule(s, at)[at - 16..] == a + b
    ensures Schedule(s, at + 8) == Schedule(s, at) + c
  {
    var sched := Sequence(s);
    forall m: nat | at <= m < at + 8 ensures Appends(sched, Next(), m) {
    }
    forall j | 0 <= j < 8 ensures Next()(sched(at) + c[..j]) == c[j] {
      OneWord(Schedule(s, at), a, b, c, j);
    }
    Grows(sched, Next(), c, at, 8);
    assert c[..8] == c;
  }

  lemma OneWord(s: Words, a: Words, b: Words, c: Words, n: nat)
    requires |s| >= 16 && n < 8 && Follows(a, b, c) && s[|s| - 16..] == a + b
    ensures NextWord(s + c[..n]) == c[n]
  {
    assert FollowsAt(a, b, c, n);
    OneValue(Mixed, s, a, b, c, n);
  }

  lemma OneValue(mix: (bv32, bv32, bv32, bv32) -> bv32, s: Words, a: Words, b: Words, c: Words, n: nat)
    requires |a| == |b| == |c| == 8 && |s| >= 16 && n < 8 && s[|s| - 16..] == a + b
    requires c[n] == mix(Pick(a, b, c, 14 + n), Pick(a, b, c, 9 + n), Pick(a, b, c, 1 + n), Pick(a, b, c, n))
    ensures var r := s + c[..n]; mix(r[|r| - 2], r[|r| - 7], r[|r| - 15], r[|r| - 16]) == c[n]
  {
    PickIs(s, a, b, c, n, 14 + n);
    PickIs(s, a, b, c, n, 9 + n);
    PickIs(s, a, b, c, n, 1 + n);
    PickIs(s, a, b, c, n, n);
  }

  lemma PickIs(s: Words, a: Words, b: Words, c: Words, n: nat, i: nat)
    requires |a| == |b| == |c| == 8 && |s| >= 16 && n < 8 && i < 16 + n && s[|s| - 16..] == a + b
    ensures (s + c[..n])[|s| - 16 + i] == Pick(a, b, c, i)
  {
    if i < 16 {
      assert (a + b)[i] == s[|s| - 16 + i];
    }
  }

  lemma MoreRow(s: Words, a: Words, b: Words, c: Words, at: nat)
    requires |s| == 16 && at >= 16 && Follows(a, b, c) && Schedule(s, at)[at - 16..] == a + b
    ensures Schedule(s, at + 8) == Schedule(s, at) + c && Schedule(s, at + 8)[at - 8..] == b + c
  {
    MoreWords(s, a, b, c, at);
    assert Schedule(s, at)[at - 8..] == (a + b)[8..] == b;
  }

  lemma Words16()
    ensures Follows(W0, W1, W2)
  {
    assert FollowsAt(W0, W1, W2, 0) && FollowsAt(W0, W1, W2, 1) && FollowsAt(W0, W1, W2, 2);
    assert FollowsAt(W0, W1, W2, 3) && FollowsAt(W0, W1, W2, 4) && FollowsAt(W0, W1, W2, 5);
    assert FollowsAt(W0, W1, W2, 6) && FollowsAt(W0, W1, W2, 7);
  }

  lemma Words24()
    ensures Follows(W1, W2, W3)
  {
    assert FollowsAt(W1, W2, W3, 0) && FollowsAt(W1, W2, W3, 1) && FollowsAt(W1, W2, W3, 2);
    assert FollowsAt(W1, W2, W3, 3) && FollowsAt(W1, W2, W3, 4) && FollowsAt(W1, W2, W3, 5);
    assert FollowsAt(W1, W2, W3, 6) && FollowsAt(W1, W2, W3, 7);
  }

  lemma Words32()
    ensures Follows(W2, W3, W4)
  {
    assert FollowsAt(W2, W3, W4, 0) && FollowsAt(W2, W3, W4, 1) && FollowsAt(W2, W3, W4, 2);
    assert FollowsAt(W2, W3, W4, 3) && FollowsAt(W2, W3, W4, 4) && FollowsAt(W2, W3, W4, 5);
    assert FollowsAt(W2, W3, W4, 6) && FollowsAt(W2, W3, W4, 7);
  }

  lemma Words40()
    ensures Follows(W3, W4, W5)
  {
    assert FollowsAt(W3, W4, W5, 0) && FollowsAt(W3, W4, W5, 1) && FollowsAt(W3, W4, W5, 2);
    assert FollowsAt(W3, W4, W5, 3) && FollowsAt(W3, W4, W5, 4) && FollowsAt(W3, W4, W5, 5);
    assert FollowsAt(W3, W4, W5, 6) && FollowsAt(W3, W4, W5, 7);
  }

  lemma Words48()
    ensures Follows(W4, W5, W6)
  {
    assert FollowsAt(W4, W5, W6, 0) && FollowsAt(W4, W5, W6, 1) && FollowsAt(W4, W5, W6, 2);
    assert FollowsAt(W4, W5, W6, 3) && FollowsAt(W4, W5, W6, 4) && FollowsAt(W4, W5, W6, 5);
    assert FollowsAt(W4, W5, W6, 6) && FollowsAt(W4, W5, W6, 7);
  }

  lemma Words56()
    ensures Follows(W5, W6, W7)
  {
    assert FollowsAt(W5, W6, W7, 0) && FollowsAt(W5, W6, W7, 1) && FollowsAt(W5, W6, W7, 2);
    assert FollowsAt(W5, W6, W7, 3) && FollowsAt(W5, W6, W7, 4) && FollowsAt(W5, W6, W7, 5);
    assert FollowsAt(W5, W6, W7, 6) && FollowsAt(W5, W6, W7, 7);
  }

  lemma ScheduleIs()
    ensures Schedule(W0 + W1, 64) == W
  {
    var s := W0 + W1;
    assert Schedule(s, 16)[0..] == s;
    Words16();
    MoreRow(s, W0, W1, W2, 16);
    Words24();
    MoreRow(s, W1, W2, W3, 24);
    Words32();
    MoreRow(s, W2, W3, W4, 32);
    Words40();
    MoreRow(s, W3, W4, W5, 40);
    Words48();
    MoreRow(s, W4, W5, W6, 48);
    Words56();
    MoreRow(s, W5, W6, W7, 56);
  }

  // ----------------------------------------------------------------- the rounds

  /** The first `n` of eight rounds. */
  function Eight(v: Words, k: Words, w: Words, n: nat): (r: Words)
    requires |v| == |k| == |w| == 8 && n <= 8
    ensures |r| == 8
  {
    if n == 0 then v else Round(Eight(v, k, w, n - 1), k[n - 1], w[n - 1])
  }

  function RoundsFrom(k: Words, h: Words, w: Words, at: nat): nat -> Words
    requires |h| == 8 && |k| == |w| == 64
  {
    (n: nat) => if at + n <= 64 then Rounds(k, h, w, at + n) else []
  }

  function EightFrom(v: Words, k8: Words, w8: Words): nat -> Words
    requires |v| == |k8| == |w8| == 8
  {
    (n: nat) => if n <= 8 then Eight(v, k8, w8, n) else []
  }

  type Operation = (Words, bv32, bv32) -> Words

  function RoundOp(): Operation {
    (v: Words, k: bv32, w: bv32) => if |v| == 8 then Round(v, k, w) else v
  }

  /** The values of `a` come from each other by the operation. */
  ghost predicate Applies(a: nat -> Words, op: Operation, k: Words, w: Words, n: nat)
    requires n < |k| && n < |w|
  {
    a(n + 1) == op(a(n), k[n], w[n])
  }

  lemma RoundsApply(k: Words, h: Words, w: Words, at: nat, k8: Words, w8: Words, n: nat)
    requires |h| == |k8| == |w8| == 8 && |k| == |w| == 64 && at + 8 <= 64 && n < 8
    requires k8[n] == k[at + n] && w8[n] == w[at + n]
    ensures Applies(RoundsFrom(k, h, w, at), RoundOp(), k8, w8, n)
  {
    assert Rounds(k, h, w, at + n + 1) == Round(Rounds(k, h, w, at + n), k[at + n], w[at + n]);
    assert RoundsFrom(k, h, w, at)(n + 1) == Rounds(k, h, w, at + n + 1);
  }

  lemma EightApplies(v: Words, k8: Words, w8: Words, n: nat)
    requires |v| == |k8| == |w8| == 8 && n < 8
    ensures Applies(EightFrom(v, k8, w8), RoundOp(), k8, w8, n)
  {
    assert EightFrom(v, k8, w8)(n) == Eight(v, k8, w8, n);
  }

  lemma {:induction false} SameValues(a: nat -> Words, b: nat -> Words, op: Operation, k: Words, w: Words, n: nat)
    requires |k| == |w| && n <= |k| && a(0) == b(0)
    requires forall m: nat :: m < |k| ==> Applies(a, op, k, w, m)
    requires forall m: nat :: m < |k| ==> Applies(b, op, k, w, m)
    ensures a(n) == b(n)
  {
    if n > 0 {
      SameValues(a, b, op, k, w, n - 1);
      assert Applies(a, op, k, w, n - 1) && Applies(b, op, k, w, n - 1);
    }
  }

  lemma RoundsSplit(k: Words, h: Words, w: Words, at: nat, k8: Words, w8: Words)
    requires |h| == |k8| == |w8| == 8 && |k| == |w| == 64 && at + 8 <= 64
    requires k[at..at + 8] == k8 && w[at..at + 8] == w8
    ensures Rounds(k, h, w, at + 8) == Eight(Rounds(k, h, w, at), k8, w8, 8)
  {
    var v := Rounds(k, h, w, at);
    var a, b := RoundsFrom(k, h, w, at), EightFrom(v, k8, w8);
    forall n: nat | n < 8 ensures Applies(a, RoundOp(), k8, w8, n) {
      assert k8[n] == k[at + n] && w8[n] == w[at + n];
      RoundsApply(k, h, w, at, k8, w8, n);
    }
    forall n: nat | n < 8 ensures Applies(b, RoundOp(), k8, w8, n) {
      EightApplies(v, k8, w8, n);
    }
    SameValues(a, b, RoundOp(), k8, w8, 8);
  }

  lemma Rounds0()
    ensures Eight(H0, K0, W0, 8) == V1
  {
  }

  lemma Rounds8()
    ensures Eight(V1, K1, W1, 8) == V2
  {
  }

  lemma Rounds16()
    ensures Eight(V2, K2, W2, 8) == V3
  {
  }

  lemma Rounds24()
    ensures Eight(V3, K3, W3, 8) == V4
  {
  }

  lemma Rounds32()
    ensures Eight(V4, K4, W4, 8) == V5
  {
  }

  lemma Rounds40()
    ensures Eight(V5, K5, W5, 8) == V6
  {
  }

  lemma Rounds48()
    ensures Eight(V6, K6, W6, 8) == V7
  {
  }

  lemma Rounds56()
    ensures Eight(V7, K7, W7, 8) == V8
  {
  }

  lemma RowsOf(k0: Words, k1: Words, k2: Words, k3: Words, k4: Words, k5: Words, k6: Words, k7: Words)
    requires |k0| == |k1| == |k2| == |k3| == |k4| == |k5| == |k6| == |k7| == 8
    ensures var k := k0 + k1 + k2 + k3 + k4 + k5 + k6 + k7;
      && k[0..8] == k0 && k[8..16] == k1 && k[16..24] == k2 && k[24..32] == k3
      && k[32..40] == k4 && k[40..48] == k5 && k[48..56] == k6 && k[56..64] == k7
  {
  }

  lemma AllRoundsAre(k: Words, w: Words)
    requires k == K && w == W
    ensures |k| == |w| == 64 && Rounds(k, H0, w, 64) == V8
  {
    RowsOf(K0, K1, K2, K3, K4, K5, K6, K7);
    RowsOf(W0, W1, W2, W3, W4, W5, W6, W7);
    FirstRounds(k, w);
    LastRounds(k, w);
  }

  lemma FirstRounds(k: Words, w: Words)
    requires |k| == |w| == 64
    requires k[0..8] == K0 && k[8..16] == K1 && k[16..24] == K2 && k[24..32] == K3
    requires w[0..8] == W0 && w[8..16] == W1 && w[16..24] == W2 && w[24..32] == W3
    ensures Rounds(k, H0, w, 32) == V4
  {
    RoundsSplit(k, H0, w, 0, K0, W0);
    Rounds0();
    RoundsSplit(k, H0, w, 8, K1, W1);
    Rounds8();
    RoundsSplit(k, H0, w, 16, K2, W2);
    Rounds16();
    RoundsSplit(k, H0, w, 24, K3, W3);
    Rounds24();
  }

  lemma LastRounds(k: Words, w: Words)
    requires |k| == |w| == 64 && Rounds(k, H0, w, 32) == V4
    requires k[32..40] == K4 && k[40..48] == K5 && k[48..56] == K6 && k[56..64] == K7
    requires w[32..40] == W4 && w[40..48] == W5 && w[48..56] == W6 && w[56..64] == W7
    ensures Rounds(k, H0, w, 64) == V8
  {
    RoundsSplit(k, H0, w, 32, K4, W4);
    Rounds32();
    RoundsSplit(k, H0, w, 40, K5, W5);
    Rounds40();
    RoundsSplit(k, H0, w, 48, K6, W6);
    Rounds48();
    RoundsSplit(k, H0, w, 56, K7, W7);
    Rounds56();
  }

  // ---------------------------------------------------------------- the message

  const ABC: Bytes := [0x61, 0x62, 0x63]

  lemma FirstWord()
    ensures WordAt(ABC, 0) == 0x6162_6380
  {
  }

  lemma OtherWords(i: nat)
    requires 0 < i < 16
    ensures SourceWord(ABC, 0, i) == if i == 15 then 24 else 0
  {
  }

  lemma BlockIs()
    ensures BlockWords(Pad(ABC), 0) == W0 + W1
  {
    var b := BlockWords(Pad(ABC), 0);
    FirstWord();
    SourceWords(ABC, 0, 0);
    forall i | 0 < i < 16 ensures b[i] == (W0 + W1)[i] {
      SourceWords(ABC, 0, i);
      OtherWords(i);
    }
  }

  const DIGEST: Words :=
    [0xba78_16bf, 0x8f01_cfea, 0x4141_40de, 0x5dae_2223, 0xb003_61a3, 0x9617_7a9c, 0xb410_ff61, 0xf200_15ad]

  lemma SumIs()
    ensures AddWords(H0, V8) == DIGEST
  {
  }

  lemma WordComesBack(w: bv32)
    ensures Word(WordBytes(w)) == w
  {
  }

  /** A hash has its words in order, each most significant byte first. */
  lemma {:induction false} BytesOf(w: Words, i: nat)
    requires i < |w|
    ensures Word(ToBytes(w)[4 * i..4 * i + 4]) == w[i]
  {
    var n := |w| - 1;
    var front := ToBytes(w[..n]);
    if i < n {
      BytesOf(w[..n], i);
      assert ToBytes(w)[4 * i..4 * i + 4] == front[4 * i..4 * i + 4];
    } else {
      WordComesBack(w[n]);
      assert ToBytes(w)[4 * i..4 * i + 4] == WordBytes(w[n]);
    }
  }

  lemma AbcDigest()
    ensures Digest(Pad(ABC), 1) == DIGEST
  {
    BlockIs();
    AbcBlock();
    assert Digest(Pad(ABC), 0) == H0;
  }

  lemma AbcBlock()
    ensures Compress(H0, W0 + W1) == DIGEST
  {
    ScheduleIs();
    AllRoundsAre(K, W);
    SumIs();
  }

  /** SHA-256 of "abc" is the published one. */
  lemma AbcHash()
    ensures Hash(ABC) == ToBytes(DIGEST)
    ensures forall i :: 0 <= i < 8 ==> Word(Hash(ABC)[4 * i..4 * i + 4]) == DIGEST[i]
  {
    AbcDigest();
    forall i | 0 <= i < 8 ensures Word(Hash(ABC)[4 * i..4 * i + 4]) == DIGEST[i] {
      BytesOf(DIGEST, i);
    }
  }
}
