/**
  Where the constants of SHA-256 come from.

  Section 5.3.3 of FIPS 180-4 takes the initial hash value from the square
  roots of the first eight primes, and section 4.2.2 the round constants from
  the cube roots of the first sixty-four: the first 32 bits behind the binary
  point.
*/
module ShaConstants {
  import opened Sha256

  const P0: seq<nat> := [2, 3, 5, 7, 11, 13, 17, 19]
  const P1: seq<nat> := [23, 29, 31, 37, 41, 43, 47, 53]
  const P2: seq<nat> := [59, 61, 67, 71, 73, 79, 83, 89]
  const P3: seq<nat> := [97, 101, 103, 107, 109, 113, 127, 131]
  const P4: seq<nat> := [137, 139, 149, 151, 157, 163, 167, 173]
  const P5: seq<nat> := [179, 181, 191, 193, 197, 199, 211, 223]
  const P6: seq<nat> := [227, 229, 233, 239, 241, 251, 257, 263]
  const P7: seq<nat> := [269, 271, 277, 281, 283, 293, 307, 311]

  /** The first sixty-four primes. */
  const PRIMES: seq<nat> := P0 + P1 + P2 + P3 + P4 + P5 + P6 + P7

  // ------------------------------------------------------------------ the roots

  /** The whole part of the cube root of a number below 343. */
  function WholeCubeRoot(p: nat): (c: nat)
    ensures p < 343 ==> c * c * c <= p < (c + 1) * (c + 1) * (c + 1)
  {
    if p < 1 then 0 else if p < 8 then 1 else if p < 27 then 2 else if p < 64 then 3 else if p < 125 then 4
    else if p < 216 then 5 else 6
  }

  /** Behind the binary point, the cube root of `p` begins with the bits of `w`. */
  predicate IsCubeRoot(w: bv32, p: nat) {
    var q := WholeCubeRoot(p) * 0x1_0000_0000 + w as int;
    q * q * q <= p * 0x1_0000_0000_0000_0000_0000_0000 < (q + 1) * (q + 1) * (q + 1)
  }

  /** The whole part of the square root of a number below 25. */
  function WholeSquareRoot(p: nat): (c: nat)
    ensures p < 25 ==> c * c <= p < (c + 1) * (c + 1)
  {
    if p < 1 then 0 else if p < 4 then 1 else if p < 9 then 2 else if p < 16 then 3 else 4
  }

  predicate IsSquareRoot(w: bv32, p: nat) {
    var q := WholeSquareRoot(p) * 0x1_0000_0000 + w as int;
    q * q <= p * 0x1_0000_0000_0000_0000 < (q + 1) * (q + 1)
  }

  predicate CubeRoots(k: Words, p: seq<nat>) {
    |k| == |p| && forall i :: 0 <= i < |k| ==> IsCubeRoot(k[i], p[i])
  }

  predicate SquareRoots(h: Words, p: seq<nat>) {
    |h| == |p| && forall i :: 0 <= i < |h| ==> IsSquareRoot(h[i], p[i])
  }

  lemma CubeRow0()
    ensures CubeRoots(K0, P0)
  {
    assert IsCubeRoot(0x428a_2f98, 2) && IsCubeRoot(0x7137_4491, 3);
    assert IsCubeRoot(0xb5c0_fbcf, 5) && IsCubeRoot(0xe9b5_dba5, 7);
    assert IsCubeRoot(0x3956_c25b, 11) && IsCubeRoot(0x59f1_11f1, 13);
    assert IsCubeRoot(0x923f_82a4, 17) && IsCubeRoot(0xab1c_5ed5, 19);
  }

  lemma CubeRow1()
    ensures CubeRoots(K1, P1)
  {
    assert IsCubeRoot(0xd807_aa98, 23) && IsCubeRoot(0x1283_5b01, 29);
    assert IsCubeRoot(0x2431_85be, 31) && IsCubeRoot(0x550c_7dc3, 37);
    assert IsCubeRoot(0x72be_5d74, 41) && IsCubeRoot(0x80de_b1fe, 43);
    assert IsCubeRoot(0x9bdc_06a7, 47) && IsCubeRoot(0xc19b_f174, 53);
  }

  lemma CubeRow2()
    ensures CubeRoots(K2, P2)
  {
    assert IsCubeRoot(0xe49b_69c1, 59) && IsCubeRoot(0xefbe_4786, 61);
    assert IsCubeRoot(0x0fc1_9dc6, 67) && IsCubeRoot(0x240c_a1cc, 71);
    assert IsCubeRoot(0x2de9_2c6f, 73) && IsCubeRoot(0x4a74_84aa, 79);
    assert IsCubeRoot(0x5cb0_a9dc, 83) && IsCubeRoot(0x76f9_88da, 89);
  }

  lemma CubeRow3()
    ensures CubeRoots(K3, P3)
  {
    assert IsCubeRoot(0x983e_5152, 97) && IsCubeRoot(0xa831_c66d, 101);
    assert IsCubeRoot(0xb003_27c8, 103) && IsCubeRoot(0xbf59_7fc7, 107);
    assert IsCubeRoot(0xc6e0_0bf3, 109) && IsCubeRoot(0xd5a7_9147, 113);
    assert IsCubeRoot(0x06ca_6351, 127) && IsCubeRoot(0x1429_2967, 131);
  }

  lemma CubeRow4()
    ensures CubeRoots(K4, P4)
  {
    assert IsCubeRoot(0x27b7_0a85, 137) && IsCubeRoot(0x2e1b_2138, 139);
    assert IsCubeRoot(0x4d2c_6dfc, 149) && IsCubeRoot(0x5338_0d13, 151);
    assert IsCubeRoot(0x650a_7354, 157) && IsCubeRoot(0x766a_0abb, 163);
    assert IsCubeRoot(0x81c2_c92e, 167) && IsCubeRoot(0x9272_2c85, 173);
  }

  lemma CubeRow5()
    ensures CubeRoots(K5, P5)
  {
    assert IsCubeRoot(0xa2bf_e8a1, 179) && IsCubeRoot(0xa81a_664b, 181);
    assert IsCubeRoot(0xc24b_8b70, 191) && IsCubeRoot(0xc76c_51a3, 193);
    assert IsCubeRoot(0xd192_e819, 197) && IsCubeRoot(0xd699_0624, 199);
    assert IsCubeRoot(0xf40e_3585, 211) && IsCubeRoot(0x106a_a070, 223);
  }

  lemma CubeRow6()
    ensures CubeRoots(K6, P6)
  {
    assert IsCubeRoot(0x19a4_c116, 227) && IsCubeRoot(0x1e37_6c08, 229);
    assert IsCubeRoot(0x2748_774c, 233) && IsCubeRoot(0x34b0_bcb5, 239);
    assert IsCubeRoot(0x391c_0cb3, 241) && IsCubeRoot(0x4ed8_aa4a, 251);
    assert IsCubeRoot(0x5b9c_ca4f, 257) && IsCubeRoot(0x682e_6ff3, 263);
  }

  lemma CubeRow7()
    ensures CubeRoots(K7, P7)
  {
    assert IsCubeRoot(0x748f_82ee, 269) && IsCubeRoot(0x78a5_636f, 271);
    assert IsCubeRoot(0x84c8_7814, 277) && IsCubeRoot(0x8cc7_0208, 281);
    assert IsCubeRoot(0x90be_fffa, 283) && IsCubeRoot(0xa450_6ceb, 293);
    assert IsCubeRoot(0xbef9_a3f7, 307) && IsCubeRoot(0xc671_78f2, 311);
  }

  lemma Joined(k: Words, p: seq<nat>, k': Words, p': seq<nat>)
    requires CubeRoots(k, p) && CubeRoots(k', p')
    ensures CubeRoots(k + k', p + p')
  {
    forall i | 0 <= i < |k + k'| ensures IsCubeRoot((k + k')[i], (p + p')[i]) {
      if i < |k| {
        assert (k + k')[i] == k[i] && (p + p')[i] == p[i];
      } else {
        assert (k + k')[i] == k'[i - |k|] && (p + p')[i] == p'[i - |k|];
      }
    }
  }

  /** The round constants are the cube roots of the first sixty-four primes. */
  lemma RoundConstants()
    ensures CubeRoots(K, PRIMES)
  {
    CubeRow0();
    CubeRow1();
    Joined(K0, P0, K1, P1);
    CubeRow2();
    Joined(K0 + K1, P0 + P1, K2, P2);
    CubeRow3();
    Joined(K0 + K1 + K2, P0 + P1 + P2, K3, P3);
    CubeRow4();
    Joined(K0 + K1 + K2 + K3, P0 + P1 + P2 + P3, K4, P4);
    CubeRow5();
    Joined(K0 + K1 + K2 + K3 + K4, P0 + P1 + P2 + P3 + P4, K5, P5);
    CubeRow6();
    Joined(K0 + K1 + K2 + K3 + K4 + K5, P0 + P1 + P2 + P3 + P4 + P5, K6, P6);
    CubeRow7();
    Joined(K0 + K1 + K2 + K3 + K4 + K5 + K6, P0 + P1 + P2 + P3 + P4 + P5 + P6, K7, P7);
  }

  /** The initial hash value holds the square roots of the first eight primes. */
  lemma InitialHash()
    ensures SquareRoots(H0, P0)
  {
    assert IsSquareRoot(0x6a09_e667, 2) && IsSquareRoot(0xbb67_ae85, 3);
    assert IsSquareRoot(0x3c6e_f372, 5) && IsSquareRoot(0xa54f_f53a, 7);
    assert IsSquareRoot(0x510e_527f, 11) && IsSquareRoot(0x9b05_688c, 13);
    assert IsSquareRoot(0x1f83_d9ab, 17) && IsSquareRoot(0x5be0_cd19, 19);
  }
}
