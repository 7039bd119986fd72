/**
  The hard-symmetric port scan.

  Behind a NAT that picks an unpredictable port per destination, fastd tries the
  ports 1..65535 in the order of an affine map `seed + index * stride` modulo
  65535 = 3 * 5 * 17 * 257. The scan is spread over many batches that hand an
  index and a round counter from one to the next.
*/
module PortScan {
  import opened Addresses
  import opened Basics
  import opened Sets

  const PORT_SPACE: int := 65535

  // --------------------------------------------------------- seed and stride

  function Mix32(value: bv32): bv32 {
    var v1 := value ^ (value >> 16);
    var v2 := v1 * 0x7feb352d;
    var v3 := v2 ^ (v2 >> 15);
    var v4 := v3 * 0x846ca68b;
    v4 ^ (v4 >> 16)
  }

  /** The bytes are mixed into the seed in order. */
  function MixBytes(seed: bv32, data: seq<bv8>): bv32 {
    if data == [] then seed
    else
      var last := |data| - 1;
      var before := MixBytes(seed, data[..last]);
      Mix32(before ^ data[last] as bv32)
  }

  function NetworkWord(ip: Ip4): bv32 {
    (ip[0] as bv32 << 24) | (ip[1] as bv32 << 16) | (ip[2] as bv32 << 8) | ip[3] as bv32
  }

  /** A stable seed below 65535 for an endpoint. */
  function Seed(endpoint: Address): (r: nat)
    ensures r < PORT_SPACE
  {
    var start: bv32 := 0x811c9dc5;
    var mixed :=
      match endpoint
      case Unspec => start
      case Inet(ip, _) => Mix32(start ^ NetworkWord(ip))
      case Inet6(ip, _, _) => MixBytes(start, ip);
    Mix32(mixed ^ (endpoint.GetPort() as bv32 << 16)) as int % PORT_SPACE
  }

  /** The stride that the search for a full-cycle stride starts from. */
  function FirstStride(endpoint: Address): (r: nat)
    ensures 1 <= r < PORT_SPACE
  {
    Mix32(Seed(endpoint) as bv32 ^ 0x9e3779b9) as int % (PORT_SPACE - 1) + 1
  }

  /** The test of the search loop: the stride is divisible by no prime factor of 65535. */
  predicate FullCycle(stride: int) {
    stride % 3 != 0 && stride % 5 != 0 && stride % 17 != 0 && stride % 257 != 0
  }

  /** The first full-cycle stride at or after `s`, wrapping from 65534 to 1. */
  function NextFullCycle(s: nat): (r: nat)
    requires 1 <= s < PORT_SPACE
    ensures 1 <= r < PORT_SPACE && FullCycle(r)
    decreases if s == 1 then 0 else PORT_SPACE + 1 - s
  {
    if FullCycle(s) then s
    else if s + 1 >= PORT_SPACE then 1
    else NextFullCycle(s + 1)
  }

  /** The search loop; it terminates from every start because stride 1 is always accepted. */
  method SearchStride(start: nat) returns (stride: nat)
    requires 1 <= start < PORT_SPACE
    ensures stride == NextFullCycle(start)
  {
    stride := start;
    while stride % 3 == 0 || stride % 5 == 0 || stride % 17 == 0 || stride % 257 == 0
      invariant 1 <= stride < PORT_SPACE && NextFullCycle(stride) == NextFullCycle(start)
      decreases if stride == 1 then 0 else PORT_SPACE + 1 - stride
    {
      stride := stride + 1;
      if stride >= PORT_SPACE {
        stride := 1;
      }
    }
  }

  /** The affine map of one endpoint: its seed and a full-cycle stride. */
  datatype Affine = Affine(seed: nat, stride: nat)

  type Scan = a: Affine | a.seed < PORT_SPACE && 1 <= a.stride < PORT_SPACE && FullCycle(a.stride) witness Affine(0, 1)

  function ScanOf(endpoint: Address): Scan {
    Affine(Seed(endpoint), NextFullCycle(FirstStride(endpoint)))
  }

  /** The port tried at scan index `index`. */
  function ScanPort(scan: Scan, index: nat): (r: Port)
    ensures 1 <= r <= PORT_SPACE
  {
    (scan.seed + index % PORT_SPACE * scan.stride) % PORT_SPACE + 1
  }

  // ----------------------------------------------------------- number theory

  /** `u` inverts `s` modulo `m`. */
  ghost predicate Inverts(u: int, s: int, m: int) {
    exists k :: u * s == 1 + m * k
  }

  ghost predicate Prime(p: int) {
    p > 1 && forall d :: 1 < d < p ==> p % d != 0
  }

  /** Modulo a prime everything but the multiples of the prime has an inverse (by descent, as in Euclid's algorithm). */
  lemma {:induction false} InverseModPrime(p: int, r: int) returns (u: int)
    requires Prime(p) && 0 < r < p
    ensures Inverts(u, r, p)
    decreases r
  {
    if r == 1 {
      u := 1;
      assert 1 * 1 == 1 + p * 0;
    } else {
      var q, r' := p / r, p % r;
      var u' := InverseModPrime(p, r');
      var k :| u' * r' == 1 + p * k;
      u := -u' * q;
      assert u * r == 1 + p * (k - u') by {
        calc {
          u * r;
          -u' * (q * r);
          { assert q * r == p - r'; }
          -u' * (p - r');
          -u' * p + u' * r';
          1 + p * k - u' * p;
          1 + p * (k - u');
        }
      }
    }
  }

  /** Inverses modulo two numbers give an inverse modulo their product. */
  lemma InverseModProduct(s: int, a: int, u: int, b: int, v: int) returns (w: int)
    requires Inverts(u, s, a) && Inverts(v, s, b)
    ensures Inverts(w, s, a * b)
  {
    var k :| u * s == 1 + a * k;
    var l :| v * s == 1 + b * l;
    w := u + v - u * (v * s);
    Distribute(u, v, s);
    OneMinus(a * k, b * l);
    Regroup(a, k, b, l);
    assert w * s == 1 + (a * b) * (-(k * l));
  }

  lemma Distribute(u: int, v: int, s: int)
    ensures (u + v - u * (v * s)) * s == u * s + v * s - (u * s) * (v * s)
  {
  }

  lemma OneMinus(x: int, y: int)
    ensures (1 + x) + (1 + y) - (1 + x) * (1 + y) == 1 - x * y
  {
  }

  lemma Regroup(a: int, k: int, b: int, l: int)
    ensures (a * k) * (b * l) == (a * b) * (k * l) && (a * b) * (-(k * l)) == -((a * b) * (k * l))
  {
  }

  lemma InverseMod(p: int, s: int) returns (u: int)
    requires Prime(p) && s % p != 0
    ensures Inverts(u, s, p)
  {
    var q, r := s / p, s % p;
    u := InverseModPrime(p, r);
    var k :| u * r == 1 + p * k;
    calc {
      u * s;
      { assert s == p * q + r; }
      u * (p * q + r);
      p * (u * q) + u * r;
      1 + p * (k + u * q);
    }
  }

  lemma Primes()
    ensures Prime(3) && Prime(5) && Prime(17) && Prime(257)
  {
    forall d | 1 < d < 257 ensures 257 % d != 0 { NoDivisorOf257(d); }
  }

  lemma NoDivisorOf257(d: int)
    requires 1 < d < 257
    ensures 257 % d != 0
  {
    if 257 % d == 0 {
      var q := 257 / d;
      assert q * d == 257;
      Product(q, d);
      var least := if d > 16 then q else d;
      SmallFactor(least, if d > 16 then d else q);
    }
  }

  lemma Product(q: int, d: int)
    ensures q > 16 && d > 16 ==> q * d > 257
  {
    if q > 16 && d > 16 { assert q * d >= 17 * d; }
  }

  lemma SmallFactor(a: int, b: int)
    requires 1 < a <= 16
    ensures a * b != 257
  {
    assert a == 2 || a == 3 || a == 4 || a == 5 || a == 6 || a == 7 || a == 8 || a == 9 || a == 10 ||
           a == 11 || a == 12 || a == 13 || a == 14 || a == 15 || a == 16;
  }

  /** Every full-cycle stride has an inverse modulo 65535. */
  lemma StrideInverse(s: int) returns (u: int)
    requires FullCycle(s)
    ensures Inverts(u, s, PORT_SPACE)
  {
    Primes();
    var u3 := InverseMod(3, s);
    var u5 := InverseMod(5, s);
    var u17 := InverseMod(17, s);
    var u257 := InverseMod(257, s);
    u := InverseModProduct(s, 3, u3, 5, u5);
    u := InverseModProduct(s, 15, u, 17, u17);
    u := InverseModProduct(s, 255, u, 257, u257);
  }

  /** A multiple of 65535 is left after cancelling an invertible factor. */
  lemma Cancel(d: int, s: int, u: int, k: int, t: int)
    requires u * s == 1 + PORT_SPACE * k && d * s == PORT_SPACE * t
    ensures d == PORT_SPACE * (u * t - d * k)
  {
    calc {
      d * (1 + PORT_SPACE * k);
      d * (u * s);
      u * (d * s);
      u * (PORT_SPACE * t);
      PORT_SPACE * (u * t);
    }
    assert d * (1 + PORT_SPACE * k) == d + PORT_SPACE * (d * k);
  }

  /** Two scan indices below 65535 never give the same port. */
  lemma ScanInjective(scan: Scan, i: nat, j: nat)
    requires i < PORT_SPACE && j < PORT_SPACE && ScanPort(scan, i) == ScanPort(scan, j)
    ensures i == j
  {
    var s := scan.stride;
    var u := StrideInverse(s);
    var k :| u * s == 1 + PORT_SPACE * k;
    var t := Apart(scan.seed, s, i, j);
    Cancel(i - j, s, u, k, t);
  }

  /** Places of an arithmetic progression with the same remainder are a multiple of the modulus apart. */
  lemma Apart(seed: int, s: int, i: int, j: int) returns (t: int)
    requires (seed + i * s) % PORT_SPACE == (seed + j * s) % PORT_SPACE
    ensures (i - j) * s == PORT_SPACE * t
  {
    t := SameRemainder(seed + i * s, seed + j * s);
    assert (i - j) * s == i * s - j * s;
  }

  lemma SameRemainder(x: int, y: int) returns (t: int)
    requires x % PORT_SPACE == y % PORT_SPACE
    ensures x - y == PORT_SPACE * t
  {
    t := x / PORT_SPACE - y / PORT_SPACE;
  }

  lemma Remainder(x: int, r: int, w: int)
    requires x == r + PORT_SPACE * w && 0 <= r < PORT_SPACE
    ensures x % PORT_SPACE == r
  {
  }

  /** Some index moves the affine map by `d`: `d` times the inverse of the stride. */
  lemma Solve(d: int, s: int) returns (i: nat, w: int)
    requires FullCycle(s)
    ensures i < PORT_SPACE && i * s == d + PORT_SPACE * w
  {
    var u := StrideInverse(s);
    var k :| u * s == 1 + PORT_SPACE * k;
    i, w := SolveWith(d, s, u, k);
  }

  lemma SolveWith(d: int, s: int, u: int, k: int) returns (i: nat, w: int)
    requires u * s == 1 + PORT_SPACE * k
    ensures i < PORT_SPACE && i * s == d + PORT_SPACE * w
  {
    var du := d * u;
    i := du % PORT_SPACE;
    var a := du / PORT_SPACE;
    w := d * k - a * s;
    calc {
      i * s;
      { assert i == du - PORT_SPACE * a; }
      (du - PORT_SPACE * a) * s;
      du * s - PORT_SPACE * (a * s);
      { assert du * s == d * (u * s); }
      d * (1 + PORT_SPACE * k) - PORT_SPACE * (a * s);
      d + PORT_SPACE * (d * k) - PORT_SPACE * (a * s);
    }
  }

  /** Every port from 1 to 65535 is the port of some scan index below 65535. */
  lemma ScanSurjective(scan: Scan, port: Port) returns (i: nat)
    requires port >= 1
    ensures i < PORT_SPACE && ScanPort(scan, i) == port
  {
    var w;
    i, w := Solve(port - 1 - scan.seed, scan.stride);
    Remainder(scan.seed + i * scan.stride, port - 1, w);
  }

  lemma WrapAround(start: nat, i: nat)
    requires i < PORT_SPACE
    ensures (start + (i - start) % PORT_SPACE) % PORT_SPACE == i
  {
  }

  /** The order in which the ports of an endpoint are tried. */
  type PortOrder = nat -> Port

  function OrderOf(scan: Scan): PortOrder {
    (i: nat) => ScanPort(scan, i)
  }

  ghost predicate SameResidue(i: int, j: int) {
    i % PORT_SPACE == j % PORT_SPACE
  }

  ghost predicate Reaches(order: PortOrder, port: Port) {
    exists i: nat :: i < PORT_SPACE && order(i) == port
  }

  /** An order that repeats every 65535 indices and tries every port in its first 65535. */
  ghost predicate FullOrder(order: PortOrder) {
    && (forall i: nat, j: nat {:trigger SameResidue(i, j)} :: SameResidue(i, j) ==> order(i) == order(j) >= 1)
    && (forall p: Port {:trigger Reaches(order, p)} :: p >= 1 ==> Reaches(order, p))
  }

  /** For every endpoint the scan repeats every 65535 indices and reaches every port. */
  lemma ScanIsFull(scan: Scan)
    ensures FullOrder(OrderOf(scan))
  {
    var order := OrderOf(scan);
    forall p: Port | p >= 1 ensures Reaches(order, p) {
      var i := ScanSurjective(scan, p);
      assert order(i) == p;
    }
  }

  /** The ports of the `n` indices from `start` on. */
  ghost function Tried(order: PortOrder, start: nat, n: nat): set<int> {
    if n == 0 then {} else Tried(order, start, n - 1) + {order(start + n - 1) as int}
  }

  lemma {:induction false} TriedHas(order: PortOrder, start: nat, n: nat, k: nat)
    requires k < n
    ensures order(start + k) as int in Tried(order, start, n)
  {
    if k < n - 1 { TriedHas(order, start, n - 1, k); }
  }

  /** Once 65535 consecutive indices are consumed, every port has been reached. */
  lemma TriedAll(order: PortOrder, start: nat, n: nat, port: Port)
    requires FullOrder(order) && n >= PORT_SPACE && port >= 1
    ensures port as int in Tried(order, start, n)
  {
    assert Reaches(order, port);
    var i: nat :| i < PORT_SPACE && order(i) == port;
    var k := (i - start) % PORT_SPACE;
    WrapAround(start, i);
    assert SameResidue(start + k, i);
    TriedHas(order, start, n, k);
  }

  // ------------------------------------------------------------ the builder

  function PortsOf(cands: seq<Address>): set<int> {
    set k | 0 <= k < |cands| :: cands[k].GetPort() as int
  }

  /** Candidates are the endpoint with pairwise distinct nonzero ports. */
  ghost predicate Candidates(cands: seq<Address>, endpoint: Address) {
    && (forall k :: 0 <= k < |cands| ==> cands[k].GetPort() != 0 && cands[k] == endpoint.WithPort(cands[k].GetPort()))
    && (forall j, k :: 0 <= j < k < |cands| ==> cands[j].GetPort() != cands[k].GetPort())
  }

  /** The numbers 1..n. */
  ghost function Interval(n: nat): (r: set<int>)
    ensures |r| == n && forall x :: x in r <==> 1 <= x <= n
  {
    if n == 0 then {} else Interval(n - 1) + {n}
  }

  lemma {:induction false} CandidatePorts(cands: seq<Address>, endpoint: Address)
    requires Candidates(cands, endpoint)
    ensures |PortsOf(cands)| == |cands|
    ensures forall p :: p in PortsOf(cands) ==> 1 <= p <= PORT_SPACE
  {
    if cands != [] {
      var last := |cands| - 1;
      CandidatePorts(cands[..last], endpoint);
      assert PortsOf(cands) == PortsOf(cands[..last]) + {cands[last].GetPort() as int};
    }
  }

  /** There are at most 65535 candidates, and exactly that many once every port is among them. */
  lemma CandidateCount(cands: seq<Address>, endpoint: Address, space: nat)
    requires Candidates(cands, endpoint) && space == PORT_SPACE
    ensures |cands| <= space
    ensures (forall p :: 1 <= p <= space ==> p in PortsOf(cands)) ==> |cands| == space
  {
    CandidatePorts(cands, endpoint);
    SubsetSize(PortsOf(cands), Interval(space));
    if forall p :: 1 <= p <= space ==> p in PortsOf(cands) {
      assert PortsOf(cands) == Interval(space);
    }
  }

  method PortAlreadySelected(out: array<Address>, count: nat, port: Port) returns (r: bool)
    requires count <= out.Length
    ensures r <==> port as int in PortsOf(out[..count])
  {
    for i := 0 to count
      invariant forall k :: 0 <= k < i ==> out[..count][k].GetPort() != port
    {
      if out[i].GetPort() == port {
        assert out[..count][i].GetPort() == port;
        return true;
      }
    }
    return false;
  }

  /** Appends a candidate unless the output is full. */
  method AddCandidate(out: array<Address>, count: nat, endpoint: Address) returns (n: nat)
    requires count <= out.Length
    modifies out
    ensures count >= out.Length ==> n == count && out[..] == old(out[..])
    ensures count < out.Length ==> n == count + 1 && out[..n] == old(out[..count]) + [endpoint]
  {
    if count >= out.Length {
      return count;
    }
    out[count] := endpoint;
    return count + 1;
  }

  /** The ports of `cands` after one more candidate. */
  lemma PortsAppend(cands: seq<Address>, c: Address)
    ensures PortsOf(cands + [c]) == PortsOf(cands) + {c.GetPort() as int}
  {
    var all := cands + [c];
    assert all[|cands|] == c;
    assert forall k :: 0 <= k < |cands| ==> all[k] == cands[k];
  }

  /** Tries one port: it is among the candidates afterwards, and at most one candidate is added. */
  method TryPort(out: array<Address>, n: nat, endpoint: Address, base: Port, port: Port) returns (n': nat)
    requires n < out.Length && port != 0 && !endpoint.Unspec?
    requires Candidates(out[..n], endpoint) && (base != 0 ==> base as int in PortsOf(out[..n]))
    modifies out
    ensures n <= n' <= n + 1 && n' <= out.Length && out[..n] == old(out[..n])
    ensures Candidates(out[..n'], endpoint) && PortsOf(out[..n']) == old(PortsOf(out[..n])) + {port as int}
    ensures n' > n ==> out[n] == endpoint.WithPort(port)
  {
    n' := n;
    var selected := PortAlreadySelected(out, n, port);
    if port != base && !selected {
      PortsAppend(out[..n], endpoint.WithPort(port));
      n' := AddCandidate(out, n, endpoint.WithPort(port));
    } else {
      assert port as int in PortsOf(out[..n]);
      assert PortsOf(out[..n]) == PortsOf(out[..n]) + {port as int};
    }
  }

  /** Advances the scan index; the 32-bit round counter counts the wrap-arounds. */
  function Advance(index: nat, round: nat): (r: (nat, nat))
    requires index < PORT_SPACE
  {
    if index + 1 >= PORT_SPACE then (0, (round + 1) % 0x1_0000_0000) else (index + 1, round)
  }

  /** Moving `consumed` indices on from `index` wraps around `wraps` times and ends at `index'`. */
  ghost predicate Moved(index: nat, consumed: nat, wraps: nat, index': nat) {
    index' < PORT_SPACE && index' + PORT_SPACE * wraps == index % PORT_SPACE + consumed
  }

  /** So index + 65535 * round grows by exactly the indices consumed; the round counter has 32 bits. */
  ghost predicate Advanced(index: nat, round: nat, consumed: nat, index': nat, round': nat) {
    exists wraps: nat :: Moved(index, consumed, wraps, index') && round' == (round + wraps) % 0x1_0000_0000
  }

  /** The ports from one to another, not including it, are all among the candidates. */
  ghost predicate HasPorts(cands: seq<Address>, from: int, to: int) {
    forall p :: from <= p < to ==> p in PortsOf(cands)
  }

  /** The candidates from n on are all from the range. */
  ghost predicate OnlyRange(cands: seq<Address>, n: nat, minPort: Port, maxPort: Port) {
    forall k :: n <= k < |cands| ==> minPort <= cands[k].GetPort() <= maxPort
  }

  /** What one more try of a port of the range adds to the candidates. */
  lemma RangeGrows(was: seq<Address>, cands: seq<Address>, n: nat, minPort: Port, maxPort: Port, endpoint: Address,
      port: Port)
    requires !endpoint.Unspec? && minPort <= port <= maxPort && |was| <= |cands| <= |was| + 1 && cands[..|was|] == was
    requires PortsOf(cands) == PortsOf(was) + {port as int}
    requires |cands| > |was| ==> cands[|was|] == endpoint.WithPort(port)
    requires HasPorts(was, minPort, port) && OnlyRange(was, n, minPort, maxPort)
    ensures HasPorts(cands, minPort, port + 1) && OnlyRange(cands, n, minPort, maxPort)
  {
    forall k | n <= k < |cands|
      ensures minPort <= cands[k].GetPort() <= maxPort
    {
      if k < |was| { assert cands[k] == was[k]; }
    }
  }

  /** The observed port range is tried first. */
  method AddRange(out: array<Address>, n0: nat, endpoint: Address, base: Port, count: nat, minPort: Port, maxPort: Port)
    returns (n: nat)
    requires n0 <= count <= out.Length && !endpoint.Unspec? && 1 <= minPort <= maxPort
    requires Candidates(out[..n0], endpoint) && (base != 0 ==> base as int in PortsOf(out[..n0]))
    modifies out
    ensures n0 <= n <= count && n - n0 <= maxPort - minPort + 1 && Candidates(out[..n], endpoint)
    ensures out[..n0] == old(out[..n0]) && old(PortsOf(out[..n0])) <= PortsOf(out[..n])
    ensures OnlyRange(out[..n], n0, minPort, maxPort)
    ensures n < count || count - n0 >= maxPort - minPort + 1 ==> HasPorts(out[..n], minPort, maxPort + 1)
  {
    n := n0;
    var offset := 0;
    while n < count && offset < maxPort - minPort + 1
      invariant n0 <= n <= count && 0 <= offset <= maxPort - minPort + 1 && n - n0 <= offset
      invariant Candidates(out[..n], endpoint) && (base != 0 ==> base as int in PortsOf(out[..n]))
      invariant out[..n0] == old(out[..n0]) && old(PortsOf(out[..n0])) <= PortsOf(out[..n])
      invariant HasPorts(out[..n], minPort, minPort + offset) && OnlyRange(out[..n], n0, minPort, maxPort)
    {
      ghost var was := out[..n];
      n := TryPort(out, n, endpoint, base, minPort + offset);
      RangeGrows(was, out[..n], n0, minPort, maxPort, endpoint, minPort + offset);
      offset := offset + 1;
      assert out[..n0] == was[..n0];
    }
  }

  lemma Residue(x: int, i: int, w: int)
    requires 0 <= i < PORT_SPACE && x == i + PORT_SPACE * w
    ensures SameResidue(x, i) && SameResidue(i, x)
  {
  }

  lemma AdvancedStep(index: nat, round: nat, consumed: nat, i: nat, r: nat)
    requires Advanced(index, round, consumed, i, r)
    ensures i < PORT_SPACE && Advanced(index, round, consumed + 1, Advance(i, r).0, Advance(i, r).1)
    ensures SameResidue(i, index + consumed)
  {
    var w: nat :| Moved(index, consumed, w, i) && r == (round + w) % 0x1_0000_0000;
    MovedResidue(index, consumed, w, i);
    NextRound(round, w);
    var w' := if i + 1 >= PORT_SPACE then w + 1 else w;
    assert Moved(index, consumed + 1, w', Advance(i, r).0);
  }

  lemma MovedResidue(index: nat, consumed: nat, w: nat, i: nat)
    requires Moved(index, consumed, w, i)
    ensures SameResidue(i, index + consumed)
  {
    Residue(index + consumed, i, w + index / PORT_SPACE);
  }

  lemma NextRound(round: nat, w: nat)
    ensures ((round + w) % 0x1_0000_0000 + 1) % 0x1_0000_0000 == (round + (w + 1)) % 0x1_0000_0000
  {
  }

  /** Then the scan goes on where it was left, over at most the whole port space. */
  method AddScan(out: array<Address>, n0: nat, endpoint: Address, order: PortOrder, base: Port, count: nat, index0: nat,
      round0: nat)
    returns (n: nat, index: nat, round: nat, ghost consumed: nat)
    requires n0 <= count <= out.Length && !endpoint.Unspec? && round0 < 0x1_0000_0000 && FullOrder(order)
    requires Candidates(out[..n0], endpoint) && (base != 0 ==> base as int in PortsOf(out[..n0]))
    modifies out
    ensures n0 <= n <= count && n - n0 <= consumed <= PORT_SPACE && Candidates(out[..n], endpoint)
    ensures out[..n0] == old(out[..n0])
    ensures Advanced(index0, round0, consumed, index, round)
    ensures Tried(order, index0, consumed) <= PortsOf(out[..n])
    ensures n < count ==> consumed == PORT_SPACE
  {
    n, index, round := n0, index0 % PORT_SPACE, round0;
    var used := 0;
    assert Moved(index0, 0, 0, index);
    while n < count && used < PORT_SPACE
      invariant n0 <= n <= count && n - n0 <= used <= PORT_SPACE
      invariant Candidates(out[..n], endpoint) && (base != 0 ==> base as int in PortsOf(out[..n]))
      invariant out[..n0] == old(out[..n0])
      invariant Advanced(index0, round0, used, index, round)
      invariant Tried(order, index0, used) <= PortsOf(out[..n])
    {
      ghost var was := out[..n];
      var port := order(index);
      AdvancedStep(index0, round0, used, index, round);
      var next := Advance(index, round);
      index, round := next.0, next.1;
      used := used + 1;
      n := TryPort(out, n, endpoint, base, port);
      assert out[..n0] == was[..n0];
    }
    consumed := used;
  }

  /** How many ports the observed range names; an unset or inverted range names none. */
  function RangeSize(minPort: Port, maxPort: Port): nat {
    if 1 <= minPort <= maxPort then maxPort - minPort + 1 else 0
  }

  /**
    The observed range comes first: behind the endpoint itself, the first m candidates are from the range, and if
    others follow them, the range is complete.
  */
  ghost predicate RangeFirst(cands: seq<Address>, minPort: Port, maxPort: Port, m: nat) {
    && m <= |cands| && OnlyRange(cands[..m], 1, minPort, maxPort)
    && (m < |cands| ==> HasPorts(cands[..m], minPort, maxPort + 1))
  }

  ghost predicate TriesRange(cands: seq<Address>, count: nat, minPort: Port, maxPort: Port) {
    1 <= minPort <= maxPort ==>
      && (exists m: nat :: RangeFirst(cands, minPort, maxPort, m))
      && (count >= 1 + RangeSize(minPort, maxPort) ==> HasPorts(cands, minPort, maxPort + 1))
  }

  /** What one batch must deliver, whatever the way it is built. */
  ghost predicate Batch(cands: seq<Address>, endpoint: Address, order: PortOrder, count: nat, minPort: Port,
                        maxPort: Port, index: nat, round: nat, consumed: nat, index': nat, round': nat)
  {
    var range := RangeSize(minPort, maxPort);
    && TriesRange(cands, count, minPort, maxPort)
    && Candidates(cands, endpoint) && |cands| == Min(count, PORT_SPACE)
    && (endpoint.GetPort() != 0 && count > 0 ==> cands[0] == endpoint)
    && Advanced(index, round, consumed, index', round')
    && Tried(order, index, consumed) <= PortsOf(cands)
    && |cands| - 1 - range <= consumed <= PORT_SPACE && (|cands| < count ==> consumed == PORT_SPACE)
  }

  /**
    Builds one batch. Whatever the range and the index, the batch has exactly min(count, 65535) candidates
    with distinct nonzero ports, starts with the endpoint itself, has the ports of the observed range next,
    contains the port of every index it consumed, and moves the index and the round by exactly the indices
    consumed.
  */
  method BuildWith(out: array<Address>, endpoint: Address, order: PortOrder, count: nat, minPort: Port, maxPort: Port,
                   hardIndex: nat, hardRound: nat)
    returns (n: nat, index: nat, round: nat, ghost consumed: nat)
    requires FullOrder(order) && 1 <= count <= out.Length && !endpoint.Unspec? && hardRound < 0x1_0000_0000
    modifies out
    ensures n <= out.Length && Batch(out[..n], endpoint, order, count, minPort, maxPort,
                                     hardIndex, hardRound, consumed, index, round)
  {
    var base := endpoint.GetPort();
    n := AddKnown(out, endpoint, base, count, minPort, maxPort);
    ghost var was := out[..n];
    n, index, round, consumed := AddScan(out, n, endpoint, order, base, count, hardIndex, hardRound);
    if base != 0 {
      assert out[..n][0] == was[0] == endpoint;
    }
    RangeStays(was, out[..n], count, minPort, maxPort);
    CandidateCount(out[..n], endpoint, PORT_SPACE);
    if n < count {
      forall p | 1 <= p <= PORT_SPACE ensures p in PortsOf(out[..n]) {
        TriedAll(order, hardIndex, consumed, p);
      }
    }
  }

  /** The endpoint itself, and the observed range. */
  method AddKnown(out: array<Address>, endpoint: Address, base: Port, count: nat, minPort: Port, maxPort: Port)
    returns (n: nat)
    requires 1 <= count <= out.Length && !endpoint.Unspec? && base == endpoint.GetPort()
    modifies out
    ensures n <= count && n <= 1 + RangeSize(minPort, maxPort) && Candidates(out[..n], endpoint)
    ensures base != 0 ==> n >= 1 && out[0] == endpoint && base as int in PortsOf(out[..n])
    ensures KnownTried(out[..n], count, minPort, maxPort)
  {
    n := 0;
    if base != 0 {
      n := AddCandidate(out, n, endpoint);
      assert out[..n] == [endpoint];
      assert out[..n][0].GetPort() as int in PortsOf(out[..n]);
    }
    if minPort != 0 && maxPort != 0 && minPort <= maxPort {
      ghost var was, n0 := out[..n], n;
      n := AddRange(out, n, endpoint, base, count, minPort, maxPort);
      if base != 0 { assert out[..n0][0] == was[0] && out[0] == out[..n0][0]; }
      assert forall k :: 1 <= k < n ==> out[..n][k] == out[k];
    }
  }

  /** The candidates before the scan: of the range only, behind the endpoint, and all of it if there is room. */
  ghost predicate KnownTried(cands: seq<Address>, count: nat, minPort: Port, maxPort: Port) {
    1 <= minPort <= maxPort ==>
      && OnlyRange(cands, 1, minPort, maxPort)
      && (|cands| < count || count >= 1 + RangeSize(minPort, maxPort) ==> HasPorts(cands, minPort, maxPort + 1))
  }

  lemma RangeStays(was: seq<Address>, cands: seq<Address>, count: nat, minPort: Port, maxPort: Port)
    requires was <= cands && |cands| <= count && KnownTried(was, count, minPort, maxPort)
    ensures TriesRange(cands, count, minPort, maxPort)
  {
    if 1 <= minPort <= maxPort {
      assert cands[..|was|] == was;
      assert RangeFirst(cands, minPort, maxPort, |was|);
      PortsStay(was, cands);
    }
  }

  lemma PortsStay(was: seq<Address>, cands: seq<Address>)
    requires was <= cands
    ensures PortsOf(was) <= PortsOf(cands)
  {
    assert forall k :: 0 <= k < |was| ==> cands[k] == was[k];
  }

  method Build(out: array<Address>, endpoint: Address, count: nat, minPort: Port, maxPort: Port, hardIndex: nat,
      hardRound: nat)
    returns (n: nat, index: nat, round: nat, ghost consumed: nat)
    requires 1 <= count <= out.Length && !endpoint.Unspec? && hardRound < 0x1_0000_0000
    modifies out
    ensures n <= out.Length && Batch(out[..n], endpoint, OrderOf(ScanOf(endpoint)), count, minPort, maxPort,
                                     hardIndex, hardRound, consumed, index, round)
  {
    ScanIsFull(ScanOf(endpoint));
    n, index, round, consumed := BuildWith(out, endpoint, OrderOf(ScanOf(endpoint)), count, minPort, maxPort, hardIndex,
      hardRound);
  }

  // --------------------------------------------------- batches one after another

  lemma RoundTwice(r: nat, v: nat, w: nat)
    ensures ((r + v) % 0x1_0000_0000 + w) % 0x1_0000_0000 == (r + (v + w)) % 0x1_0000_0000
  {
  }

  lemma AdvancedTwice(i0: nat, r0: nat, c1: nat, i1: nat, r1: nat, c2: nat, i2: nat, r2: nat)
    requires Advanced(i0, r0, c1, i1, r1) && Advanced(i1, r1, c2, i2, r2)
    ensures Advanced(i0, r0, c1 + c2, i2, r2) && SameResidue(i0 + c1, i1)
  {
    var v: nat :| Moved(i0, c1, v, i1) && r1 == (r0 + v) % 0x1_0000_0000;
    var w: nat :| Moved(i1, c2, w, i2) && r2 == (r1 + w) % 0x1_0000_0000;
    assert Moved(i0, c1 + c2, v + w, i2);
    RoundTwice(r0, v, w);
    Residue(i0 + c1, i1, v + i0 / PORT_SPACE);
  }

  lemma ResidueShift(i: int, j: int, d: int)
    requires SameResidue(i, j)
    ensures SameResidue(i + d, j + d)
  {
  }

  lemma {:induction false} TriedTwice(order: PortOrder, i0: nat, c1: nat, i1: nat, c2: nat)
    requires FullOrder(order) && SameResidue(i0 + c1, i1)
    ensures Tried(order, i0, c1 + c2) == Tried(order, i0, c1) + Tried(order, i1, c2)
  {
    if c2 > 0 {
      TriedTwice(order, i0, c1, i1, c2 - 1);
      ResidueShift(i0 + c1, i1, c2 - 1);
    }
  }

  /** One more batch on top of a run that has consumed `sum` indices and produced `ports`. */
  lemma NextBatch(order: PortOrder, i0: nat, r0: nat, sum: nat, ports: set<int>, endpoint: Address, req: Request,
                  i1: nat, r1: nat, cands: seq<Address>, c: nat, i2: nat, r2: nat)
    requires FullOrder(order) && Advanced(i0, r0, sum, i1, r1) && Tried(order, i0, sum) <= ports && req.count >= 1
    requires Batch(cands, endpoint, order, req.count, req.minPort, req.maxPort, i1, r1, c, i2, r2)
    ensures Advanced(i0, r0, sum + c, i2, r2) && i2 < PORT_SPACE && r2 < 0x1_0000_0000
    ensures Tried(order, i0, sum + c) <= ports + PortsOf(cands)
    ensures forall p :: p in PortsOf(cands) ==> 1 <= p <= PORT_SPACE
    ensures req.count >= RangeSize(req.minPort, req.maxPort) + 2 ==> c >= 1
  {
    AdvancedTwice(i0, r0, sum, i1, r1, c, i2, r2);
    TriedTwice(order, i0, sum, i1, c);
    CandidatePorts(cands, endpoint);
  }

  datatype Request = Request(count: nat, minPort: Port, maxPort: Port)

  /**
    A run of batches for one endpoint that hands the index and round on: they move by exactly the indices
    consumed in all, and once 65535 indices are consumed every port has been a candidate. When each batch
    asks for at least two more candidates than its range names, each consumes at least one index, so 65535
    such batches suffice.
  */
  method ScanRun(endpoint: Address, order: PortOrder, requests: seq<Request>, index0: nat, round0: nat)
    returns (ports: set<int>, index: nat, round: nat, ghost consumed: nat)
    requires FullOrder(order) && !endpoint.Unspec? && index0 < PORT_SPACE && round0 < 0x1_0000_0000
    requires forall r :: r in requests ==> r.count >= 1
    ensures Advanced(index0, round0, consumed, index, round)
    ensures Tried(order, index0, consumed) <= ports && forall p :: p in ports ==> 1 <= p <= PORT_SPACE
    ensures consumed >= PORT_SPACE ==> forall p :: 1 <= p <= PORT_SPACE ==> p in ports
    ensures (forall r :: r in requests ==> r.count >= RangeSize(r.minPort, r.maxPort) + 2) ==> consumed >= |requests|
  {
    ports, index, round, consumed := {}, index0, round0, 0;
    assert Moved(index0, 0, 0, index);
    for i := 0 to |requests|
      invariant index < PORT_SPACE && round < 0x1_0000_0000 && Advanced(index0, round0, consumed, index, round)
      invariant forall p :: p in ports ==> 1 <= p <= PORT_SPACE
      invariant Tried(order, index0, consumed) <= ports
      invariant (forall r :: r in requests ==> r.count >= RangeSize(r.minPort, r.maxPort) + 2) ==> consumed >= i
    {
      var r := requests[i];
      var out := new Address[r.count](_ => endpoint);
      ghost var index1, round1 := index, round;
      var n;
      ghost var c;
      n, index, round, c := BuildWith(out, endpoint, order, r.count, r.minPort, r.maxPort, index, round);
      NextBatch(order, index0, round0, consumed, ports, endpoint, r, index1, round1, out[..n], c, index, round);
      ports := ports + PortsOf(out[..n]);
      consumed := consumed + c;
    }
    if consumed >= PORT_SPACE {
      forall p | 1 <= p <= PORT_SPACE ensures p in ports {
        TriedAll(order, index0, consumed, p);
      }
    }
  }

  /** The same for the scan of the endpoint itself. */
  method ScanEndpoint(endpoint: Address, requests: seq<Request>, index0: nat, round0: nat)
    returns (ports: set<int>, index: nat, round: nat, ghost consumed: nat)
    requires !endpoint.Unspec? && index0 < PORT_SPACE && round0 < 0x1_0000_0000
    requires forall r :: r in requests ==> r.count >= 1
    ensures Advanced(index0, round0, consumed, index, round)
    ensures Tried(OrderOf(ScanOf(endpoint)), index0, consumed) <= ports
    ensures forall p :: p in ports ==> 1 <= p <= PORT_SPACE
    ensures consumed >= PORT_SPACE ==> forall p :: 1 <= p <= PORT_SPACE ==> p in ports
    ensures (forall r :: r in requests ==> r.count >= RangeSize(r.minPort, r.maxPort) + 2) ==> consumed >= |requests|
  {
    ScanIsFull(ScanOf(endpoint));
    ports, index, round, consumed := ScanRun(endpoint, OrderOf(ScanOf(endpoint)), requests, index0, round0);
  }
}
