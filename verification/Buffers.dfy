/** Writing into buffers, and slices of slices. */
module Buffers {

  method Store<T>(mem: array<T>, at: nat, data: seq<T>)
    requires at + |data| <= mem.Length
    modifies mem
    ensures mem[..] == old(mem[..at]) + data + old(mem[at + |data|..])
  {
    for i := 0 to |data|
      invariant mem[..] == old(mem[..at]) + data[..i] + old(mem[at + i..])
    {
      mem[at + i] := data[i];
    }
  }

  lemma SliceOfSlice<T>(s: seq<T>, a: nat, b: nat, c: nat, d: nat)
    requires a <= b <= |s| && c <= d <= b - a
    ensures s[a..b][c..d] == s[a + c..a + d]
  {
    assert forall i :: 0 <= i < d - c ==> s[a..b][c..d][i] == s[a..b][c + i] == s[a + c + i] == s[a + c..a + d][i];
  }
}
