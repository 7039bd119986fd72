/**
 * The rendezvous by time of src/hole_punch.h: two peers without a common channel
 * derive punch ports from their own clocks, and must agree on some of them.
 */
module HolePunch {
  import opened Basics

  const WINDOW := 42
  const MAX_CLOCK_ERROR := 20
  const NUM_PORTS := 16
  const BUCKETS := 3
  const TRIES := 128
  const BASE_PORT := 30000
  const PORT_RANGE := 20000

  type Port = p: int | BASE_PORT <= p < BASE_PORT + PORT_RANGE witness 30000
  type Word = w: int | 0 <= w < 0x1_0000_0000

  /** Division as in C: toward zero. */
  function Truncated(n: int, d: int): int
    requires d > 0
  {
    if n >= 0 then n / d else -((-n) / d)
  }

  function Bucket(now: int): int {
    Truncated(now - MAX_CLOCK_ERROR, WINDOW)
  }

  /** The product wraps at 64 bits before the remainder is taken. */
  function Boundary(bucket: int): Word {
    bucket * 2654435761 % 0x1_0000_0000_0000_0000 % 0xffffffff
  }

  function Seed(bucket: int): Word {
    ((Boundary(bucket) as bv32) ^ 0x9e3779b9) as int
  }

  function Next(state: Word): Word {
    (state * 1664525 + 1013904223) % 0x1_0000_0000
  }

  function PortOf(state: Word): Port {
    BASE_PORT + state % PORT_RANGE
  }

  /** The generator's state after k further steps. */
  function State(state: Word, k: nat): Word {
    if k == 0 then state else Next(State(state, k - 1))
  }

  /** The k-th output of a bucket's generator. */
  function Output(bucket: int, k: nat): Port {
    PortOf(State(Seed(bucket), k + 1))
  }

  // ------------------------------------------------------------- generation

  /** One bucket's turn: its outputs from the given one on, as far as they are new to the list. */
  function Turn(bucket: int, ports: seq<Port>, added: nat, tries: nat, max: nat): seq<Port>
    decreases TRIES - tries, bucket, max
  {
    if added >= NUM_PORTS || |ports| >= max || tries >= TRIES then ports
    else if Output(bucket, tries) in ports then Turn(bucket, ports, added, tries + 1, max)
    else Turn(bucket, ports + [Output(bucket, tries)], added + 1, tries + 1, max)
  }

  /** The turns of n buckets, one after the other. */
  function Turns(first: int, n: nat, max: nat): seq<Port> {
    if n == 0 then [] else Turn(first + n - 1, Turns(first, n - 1, max), 0, 0, max)
  }

  function Generated(now: int, max: nat): seq<Port> {
    Turns(Bucket(now) - 1, BUCKETS, max)
  }

  method Contains(ports: array<Port>, n: nat, port: int) returns (found: bool)
    requires n <= ports.Length
    ensures found <==> port in ports[..n]
  {
    for i := 0 to n
      invariant port !in ports[..i]
    {
      if ports[i] == port {
        return true;
      }
    }
    return false;
  }

  method AddBucket(ports: array<Port>, n: nat, max: nat, bucket: int) returns (m: nat)
    requires n <= max <= ports.Length
    modifies ports
    ensures n <= m <= max && ports[..m] == Turn(bucket, old(ports[..n]), 0, 0, max)
  {
    var state := Seed(bucket);
    var added, tries := 0, 0;
    m := n;
    while added < NUM_PORTS && m < max && tries < TRIES
      invariant n <= m <= max && tries <= TRIES
      invariant state == State(Seed(bucket), tries)
      invariant Turn(bucket, ports[..m], added, tries, max) == Turn(bucket, old(ports[..n]), 0, 0, max)
      decreases TRIES - tries
    {
      state := Next(state);
      var port := PortOf(state);
      tries := tries + 1;
      var known := Contains(ports, m, port);
      if !known {
        ghost var before := ports[..m];
        ports[m] := port;
        m := m + 1;
        added := added + 1;
        assert ports[..m] == before + [port];
      }
    }
  }

  method GeneratePorts(ports: array<Port>, max: nat, now: int) returns (n: nat)
    requires max <= ports.Length
    modifies ports
    ensures n <= max && ports[..n] == Generated(now, max)
  {
    n := 0;
    var bucket, b := Bucket(now) - 1, 0;
    while b < BUCKETS && n < max
      invariant b <= BUCKETS && bucket == Bucket(now) - 1 + b
      invariant n <= max && ports[..n] == Turns(Bucket(now) - 1, b, max)
    {
      n := AddBucket(ports, n, max, bucket);
      bucket, b := bucket + 1, b + 1;
    }
    FullStays(Bucket(now) - 1, b, BUCKETS, max);
  }

  /** Once the list is full, further buckets add nothing. */
  lemma {:induction false} FullStays(first: int, n: nat, m: nat, max: nat)
    requires n <= m && (n == m || |Turns(first, n, max)| >= max)
    ensures Turns(first, m, max) == Turns(first, n, max)
  {
    if n < m {
      FullStays(first, n, m - 1, max);
    }
  }

  method PortValid(port: int, now: int) returns (valid: bool)
    ensures valid <==> port in Generated(now, NUM_PORTS * BUCKETS)
  {
    var ports := new Port[NUM_PORTS * BUCKETS];
    var n := GeneratePorts(ports, ports.Length, now);
    valid := Contains(ports, n, port);
  }

  // ------------------------------------------------------------- what is generated

  /** The port is one of the first n outputs of the bucket. */
  ghost predicate FromBucket(bucket: int, p: Port, n: nat) {
    exists k: nat :: k < n && p == Output(bucket, k)
  }

  ghost predicate AllFrom(bucket: int, ports: seq<Port>, from: nat, n: nat) {
    forall i :: from <= i < |ports| ==> FromBucket(bucket, ports[i], n)
  }

  /** Every one of the first n outputs is listed. */
  ghost predicate Covers(bucket: int, ports: seq<Port>, n: nat) {
    forall k: nat :: k < n ==> Output(bucket, k) in ports
  }

  /**
   * What a turn may do: it only appends, keeps the ports distinct and appends at most sixteen, all of them among
   * the bucket's first 128 outputs. It leaves none of the first sixteen outputs out unless the list ran full, and
   * it appends fewer than sixteen only if the list ran full or all 128 outputs are listed.
   */
  ghost predicate Fair(bucket: int, before: seq<Port>, after: seq<Port>, max: nat) {
    && before <= after && |after| <= |before| + NUM_PORTS && |after| <= max
    && Distinct(after) && AllFrom(bucket, after, |before|, TRIES)
    && (|after| == max < |before| + NUM_PORTS || Covers(bucket, after, NUM_PORTS))
    && (|after| == max || |after| == |before| + NUM_PORTS || Covers(bucket, after, TRIES))
  }

  lemma {:induction false} TurnLaws(bucket: int, before: seq<Port>, ports: seq<Port>, tries: nat, max: nat)
    requires before <= ports && |ports| <= |before| + tries && |ports| <= |before| + NUM_PORTS && tries <= TRIES
    requires |ports| <= max && Distinct(ports) && AllFrom(bucket, ports, |before|, TRIES) &&
      Covers(bucket, ports, tries)
    ensures Fair(bucket, before, Turn(bucket, ports, |ports| - |before|, tries, max), max)
    decreases TRIES - tries
  {
    if |ports| - |before| < NUM_PORTS && |ports| < max && tries < TRIES {
      if Output(bucket, tries) in ports {
        TurnLaws(bucket, before, ports, tries + 1, max);
      } else {
        var more := ports + [Output(bucket, tries)];
        assert FromBucket(bucket, Output(bucket, tries), TRIES);
        assert AllFrom(bucket, more, |before|, TRIES);
        TurnLaws(bucket, before, more, tries + 1, max);
      }
    }
  }

  /** The port is among the first 128 outputs of one of n buckets. */
  ghost predicate FromSome(first: int, n: nat, p: Port) {
    exists b {:trigger FromBucket(b, p, TRIES)} :: first <= b < first + n && FromBucket(b, p, TRIES)
  }

  /**
   * A good list for n buckets: at most sixteen distinct ports for each, none from elsewhere, and with every
   * bucket's first sixteen outputs if there was room for sixteen times n.
   */
  ghost predicate Good(first: int, n: nat, max: nat, ports: seq<Port>) {
    && |ports| <= NUM_PORTS * n && |ports| <= max && Distinct(ports)
    && (forall i :: 0 <= i < |ports| ==> FromSome(first, n, ports[i]))
    && (NUM_PORTS * n <= max ==> forall b :: first <= b < first + n ==> Covers(b, ports, NUM_PORTS))
  }

  lemma FairKeepsGood(first: int, n: nat, max: nat, before: seq<Port>, after: seq<Port>)
    requires n > 0 && Good(first, n - 1, max, before) && Fair(first + n - 1, before, after, max)
    ensures Good(first, n, max, after)
  {
    forall i | 0 <= i < |after|
      ensures FromSome(first, n, after[i])
    {
      if i < |before| {
        assert after[i] == before[i] && FromSome(first, n - 1, before[i]);
      } else {
        assert FromBucket(first + n - 1, after[i], TRIES);
      }
    }
    forall b | NUM_PORTS * n <= max && first <= b < first + n
      ensures Covers(b, after, NUM_PORTS)
    {
      if b < first + n - 1 { assert Covers(b, before, NUM_PORTS); }
    }
  }

  lemma TurnIsFair(bucket: int, before: seq<Port>, max: nat)
    requires |before| <= max && Distinct(before)
    ensures Fair(bucket, before, Turn(bucket, before, 0, 0, max), max)
  {
    TurnLaws(bucket, before, before, 0, max);
  }

  lemma {:induction false} TurnsAreGood(first: int, n: nat, max: nat)
    ensures Good(first, n, max, Turns(first, n, max))
  {
    if n > 0 {
      var before := Turns(first, n - 1, max);
      TurnsAreGood(first, n - 1, max);
      TurnIsFair(first + n - 1, before, max);
      FairKeepsGood(first, n, max, before, Turns(first, n, max));
    }
  }

  // ------------------------------------------------------------- agreement of two clocks

  /** The bucket is one of the three a peer generates ports for at this time. */
  ghost predicate Near(bucket: int, now: int) {
    Bucket(now) - 1 <= bucket <= Bucket(now) + 1
  }

  /** Clocks at most two windows apart have buckets at most two apart. */
  lemma BucketsClose(a: int, b: int)
    requires a <= b <= a + 2 * WINDOW
    ensures Bucket(a) <= Bucket(b) <= Bucket(a) + 2
  {
  }

  /** Two peers have a bucket in common exactly if their own buckets are at most two apart. */
  lemma SharedBucket(a: int, b: int)
    ensures (exists s :: Near(s, a) && Near(s, b)) <==> Bucket(a) - 2 <= Bucket(b) <= Bucket(a) + 2
  {
    if Bucket(a) <= Bucket(b) <= Bucket(a) + 2 {
      var s := Bucket(b) - 1;
      assert Near(s, a) && Near(s, b);
    } else if Bucket(b) <= Bucket(a) <= Bucket(b) + 2 {
      var s := Bucket(a) - 1;
      assert Near(s, a) && Near(s, b);
    }
  }

  /** The tolerance is exact: one second more, and in every window there are clocks with no bucket in common. */
  lemma ToleranceIsExact(n: nat)
    ensures var late := MAX_CLOCK_ERROR + WINDOW * n + WINDOW - 1;
      !exists s :: Near(s, late) && Near(s, late + 2 * WINDOW + 1)
  {
    var late := MAX_CLOCK_ERROR + WINDOW * n + WINDOW - 1;
    assert Bucket(late) == n && Bucket(late + 2 * WINDOW + 1) == n + 3;
  }

  ghost predicate Valid(port: Port, now: int) {
    port in Generated(now, NUM_PORTS * BUCKETS)
  }

  /** A bucket's first sixteen outputs are valid at every time near it. */
  lemma OutputsAreValid(bucket: int, now: int, k: nat)
    requires Near(bucket, now) && k < NUM_PORTS
    ensures Valid(Output(bucket, k), now)
  {
    TurnsAreGood(Bucket(now) - 1, BUCKETS, NUM_PORTS * BUCKETS);
    assert Covers(bucket, Generated(now, NUM_PORTS * BUCKETS), NUM_PORTS);
  }

  /** Two peers whose clocks are at most 84 seconds apart agree on sixteen outputs of some bucket. */
  lemma Rendezvous(a: int, b: int) returns (shared: int)
    requires -2 * WINDOW <= a - b <= 2 * WINDOW
    ensures Near(shared, a) && Near(shared, b)
    ensures forall k: nat :: k < NUM_PORTS ==> Valid(Output(shared, k), a) && Valid(Output(shared, k), b)
  {
    if a <= b { BucketsClose(a, b); } else { BucketsClose(b, a); }
    SharedBucket(a, b);
    shared :| Near(shared, a) && Near(shared, b);
    forall k: nat | k < NUM_PORTS
      ensures Valid(Output(shared, k), a) && Valid(Output(shared, k), b)
    {
      OutputsAreValid(shared, a, k);
      OutputsAreValid(shared, b, k);
    }
  }

  /** The ports of any time: at most 48, distinct, and all among the first 128 outputs of its three buckets. */
  lemma GeneratedIsGood(now: int, max: nat)
    ensures Good(Bucket(now) - 1, BUCKETS, max, Generated(now, max))
    ensures |Generated(now, max)| <= 48
  {
    TurnsAreGood(Bucket(now) - 1, BUCKETS, max);
  }

  // ------------------------------------------------------------- the generator's period

  function Power(a: nat, k: nat): nat {
    if k == 0 then 1 else a * Power(a, k - 1)
  }

  /** The sum of the first k powers. */
  function Sum(a: nat, k: nat): nat {
    if k == 0 then 0 else a * Sum(a, k - 1) + 1
  }

  function Pow2(k: nat): nat {
    if k == 0 then 1 else 2 * Pow2(k - 1)
  }

  lemma WordSize()
    ensures Pow2(32) == 0x1_0000_0000
  {
    assert Pow2(8) == 0x100;
    assert Pow2(16) == 0x1_0000;
    assert Pow2(24) == 0x100_0000;
  }

  /** The number can be halved k times. */
  ghost predicate Twos(k: nat, n: int) {
    k == 0 || (n % 2 == 0 && Twos(k - 1, n / 2))
  }

  lemma {:induction false} TwosOfPower(k: nat, t: int)
    ensures Twos(k, Pow2(k) * t)
  {
    if k > 0 {
      TwosOfPower(k - 1, t);
      assert Pow2(k) * t == 2 * (Pow2(k - 1) * t);
    }
  }

  lemma {:induction false} TwosAreLarge(k: nat, n: nat)
    requires Twos(k, n) && n > 0
    ensures n >= Pow2(k)
  {
    if k > 0 { TwosAreLarge(k - 1, n / 2); }
  }

  lemma OddProduct(m: int, g: int)
    requires g % 2 == 1 && m % 2 == 1
    ensures m * g % 2 == 1
  {
    assert m == 2 * (m / 2) + 1;
    assert m * g == 2 * (m / 2 * g) + g;
  }

  /** An odd factor does not help. */
  lemma {:induction false} OddCancels(k: nat, n: int, g: int)
    requires Twos(k, n * g) && g % 2 == 1
    ensures Twos(k, n)
  {
    if k > 0 {
      if n % 2 == 1 { OddProduct(n, g); }
      assert n == 2 * (n / 2);
      assert n * g == 2 * (n / 2 * g);
      OddCancels(k - 1, n / 2, g);
    }
  }

  lemma {:induction false} SumParity(a: nat, h: nat, d: nat) returns (r: nat)
    requires a == 2 * h + 1
    ensures Sum(a, d) == d + 2 * r
  {
    r := 0;
    if d > 0 {
      r := SumParity(a, h, d - 1);
      var s := Sum(a, d - 1);
      assert (2 * h + 1) * s == 2 * (h * s) + s;
      r := r + h * s;
    }
  }

  lemma {:induction false} PowerOne(a: nat, g: nat, e: nat) returns (r: nat)
    requires a == 4 * g + 1
    ensures Power(a, e) == 4 * r + 1
  {
    r := 0;
    if e > 0 {
      r := PowerOne(a, g, e - 1);
      var p := Power(a, e - 1);
      assert (4 * g + 1) * p == 4 * (g * p) + p;
      r := r + g * p;
    }
  }

  lemma {:induction false} SumSplits(a: nat, e: nat, f: nat)
    ensures Sum(a, e + f) == Power(a, f) * Sum(a, e) + Sum(a, f)
  {
    if f > 0 {
      SumSplits(a, e, f - 1);
      Distribute(a, Power(a, f - 1), Sum(a, e), Sum(a, f - 1));
    }
  }

  lemma Distribute(a: int, p: int, s: int, u: int)
    ensures a * (p * s + u) == a * p * s + a * u
  {
  }

  /** The sum of d powers has no more twos than d itself. */
  lemma {:induction false} SumHasFewTwos(a: nat, g: nat, k: nat, d: nat)
    requires a == 4 * g + 1 && Twos(k, Sum(a, d))
    ensures Twos(k, d)
  {
    if k > 0 {
      var r := SumParity(a, 2 * g, d);
      var e := d / 2;
      assert d == 2 * e;
      var h := HalfOf(a, g, e);
      FewerTwos(k, Sum(a, d), Sum(a, e), h);
      SumHasFewTwos(a, g, k - 1, e);
    }
  }

  lemma FewerTwos(k: nat, n: int, s: int, r: int)
    requires k > 0 && Twos(k, n) && n == 2 * (s * (2 * r + 1))
    ensures Twos(k - 1, s)
  {
    assert n / 2 == s * (2 * r + 1);
    OddCancels(k - 1, s, 2 * r + 1);
  }

  lemma HalfOf(a: nat, g: nat, e: nat) returns (r: nat)
    requires a == 4 * g + 1
    ensures Sum(a, 2 * e) == 2 * (Sum(a, e) * (2 * r + 1))
  {
    r := PowerOne(a, g, e);
    Halved(a, e, r);
  }

  lemma Halved(a: nat, e: nat, r: nat)
    requires Power(a, e) == 4 * r + 1
    ensures Sum(a, 2 * e) == 2 * (Sum(a, e) * (2 * r + 1))
  {
    SumSplits(a, e, e);
    HalfSum(Power(a, e), Sum(a, e), r);
  }

  lemma HalfSum(p: int, s: int, r: int)
    requires p == 4 * r + 1
    ensures p * s + s == 2 * (s * (2 * r + 1))
  {
  }

  lemma {:induction false} PowerIsSum(a: nat, d: nat)
    requires a >= 1
    ensures Power(a, d) - 1 == (a - 1) * Sum(a, d)
  {
    if d > 0 {
      PowerIsSum(a, d - 1);
      OneMorePower(a, Power(a, d - 1), Sum(a, d - 1));
    }
  }

  lemma OneMorePower(a: int, p: int, s: int)
    requires p - 1 == (a - 1) * s
    ensures a * p - 1 == (a - 1) * (a * s + 1)
  {
    assert a * p - 1 == (a - 1) + a * ((a - 1) * s);
    assert a * ((a - 1) * s) == (a - 1) * (a * s);
  }

  const FACTOR := 1664525
  const INCREMENT := 1013904223

  /** The state after k steps, without the remainders taken on the way. */
  lemma {:induction false} StateIs(a: nat, x: Word, k: nat) returns (t: int)
    requires a == FACTOR
    ensures Power(a, k) * x + INCREMENT * Sum(a, k) == State(x, k) + 0x1_0000_0000 * t
  {
    t := 0;
    if k > 0 {
      t := StateIs(a, x, k - 1);
      var p, u, y := Power(a, k - 1), Sum(a, k - 1), State(x, k - 1);
      var q := (y * FACTOR + INCREMENT) / 0x1_0000_0000;
      assert y * FACTOR + INCREMENT == Next(y) + 0x1_0000_0000 * q;
      Unfold(p, u, x);
      t := q + FACTOR * t;
    }
  }

  lemma Unfold(p: int, u: int, x: int)
    ensures FACTOR * p * x + INCREMENT * (FACTOR * u + 1) == FACTOR * (p * x + INCREMENT * u) + INCREMENT
  {
  }

  lemma {:induction false} StateSplits(x: Word, i: nat, d: nat)
    ensures State(x, i + d) == State(State(x, i), d)
  {
    if d > 0 { StateSplits(x, i, d - 1); }
  }

  /** A state that comes back after d steps makes d a multiple of 2^32. */
  lemma ComesBack(a: nat, y: Word, d: nat)
    requires a == FACTOR && State(y, d) == y
    ensures Twos(32, d)
  {
    var t := StateIs(a, y, d);
    PowerIsSum(a, d);
    Multiples(Power(a, d), Sum(a, d), y, t);
    SumHasFewTwos(a, 416131, 32, d);
  }

  lemma Multiples(p: int, s: int, y: int, t: int)
    requires p - 1 == (FACTOR - 1) * s && p * y + INCREMENT * s == y + 0x1_0000_0000 * t
    ensures Twos(32, s)
  {
    Collect(p, s, y, t);
    OddStep(y);
    MultipleOfWord(s, (FACTOR - 1) * y + INCREMENT, t);
  }

  lemma OddStep(y: int)
    ensures ((FACTOR - 1) * y + INCREMENT) % 2 == 1
  {
  }

  lemma MultipleOfWord(s: int, g: int, t: int)
    requires s * g == 0x1_0000_0000 * t && g % 2 == 1
    ensures Twos(32, s)
  {
    WholeTwos(s * g, t);
    OddCancels(32, s, g);
  }

  lemma WholeTwos(n: int, t: int)
    requires n == 0x1_0000_0000 * t
    ensures Twos(32, n)
  {
    WordSize();
    TwosOfPower(32, t);
  }

  lemma Collect(p: int, s: int, y: int, t: int)
    requires p - 1 == (FACTOR - 1) * s && p * y + INCREMENT * s == y + 0x1_0000_0000 * t
    ensures s * ((FACTOR - 1) * y + INCREMENT) == 0x1_0000_0000 * t
  {
    assert p * y - y == (p - 1) * y == (FACTOR - 1) * s * y;
  }

  /** The generator has the full period: in 2^32 steps no state comes twice, so its tries never run in a circle. */
  lemma StatesDiffer(x: Word, i: nat, j: nat)
    requires i < j < i + 0x1_0000_0000
    ensures State(x, i) != State(x, j)
  {
    if State(x, i) == State(x, j) {
      StateSplits(x, i, j - i);
      ComesBack(FACTOR, State(x, i), j - i);
      TwosAreLarge(32, j - i);
      WordSize();
    }
  }
}
