/**
 * The table of learned MAC addresses (ctx.eth_addrs of src/peer.c): a sorted vector,
 * searched by bisection, from which timed-out entries and the entries of a reset peer
 * are squeezed out in place.
 */
module MacTable {
  const STALE_TIME := 300000
  const ADDRESS_BYTES := 6

  type Byte = b: int | 0 <= b < 256
  type Mac = m: seq<Byte> | |m| == ADDRESS_BYTES witness [0, 0, 0, 0, 0, 0]
  type Peer = nat

  /** Where an address was learned: on the local side or from a peer. */
  datatype Owner = Local | Remote(peer: Peer)
  datatype Entry = Entry(addr: Mac, owner: Owner, timeout: int)
  datatype Route = Route(owner: Owner, timeout: int)

  // ------------------------------------------------------------- the order of addresses

  /** Compares the addresses from byte i on. */
  function Compare(a: Mac, b: Mac, i: nat): (c: int)
    requires i <= ADDRESS_BYTES
    ensures c == 0 <==> a[i..] == b[i..]
    decreases ADDRESS_BYTES - i, a, b
  {
    if i == |a| then 0
    else if a[i] != b[i] then a[i] - b[i]
    else
      assert a[i..] == [a[i]] + a[i + 1..] && b[i..] == [b[i]] + b[i + 1..];
      Compare(a, b, i + 1)
  }

  function Cmp(a: Mac, b: Mac): (c: int)
    ensures c == 0 <==> a == b
  {
    assert a[0..] == a && b[0..] == b;
    Compare(a, b, 0)
  }

  lemma {:induction false} CompareLaws(a: Mac, b: Mac, c: Mac, i: nat)
    requires i <= ADDRESS_BYTES
    ensures Compare(a, b, i) < 0 <==> Compare(b, a, i) > 0
    ensures Compare(a, b, i) < 0 && Compare(b, c, i) < 0 ==> Compare(a, c, i) < 0
    decreases ADDRESS_BYTES - i
  {
    if i < ADDRESS_BYTES {
      CompareLaws(a, b, c, i + 1);
    }
  }

  /** The comparison is a strict total order. */
  lemma CmpLaws(a: Mac, b: Mac, c: Mac)
    ensures Cmp(a, b) < 0 <==> Cmp(b, a) > 0
    ensures Cmp(a, b) < 0 && Cmp(b, c) < 0 ==> Cmp(a, c) < 0
  {
    CompareLaws(a, b, c, 0);
  }

  // ------------------------------------------------------------- sorted tables and their meaning

  ghost predicate Sorted(s: seq<Entry>) {
    forall i, j :: 0 <= i < j < |s| ==> Cmp(s[i].addr, s[j].addr) < 0
  }

  ghost predicate Has(s: seq<Entry>, addr: Mac) {
    exists i :: 0 <= i < |s| && s[i].addr == addr
  }

  /** The table stands for the map: it holds exactly one entry for each address in it, with its route. */
  ghost predicate StandsFor(s: seq<Entry>, m: map<Mac, Route>) {
    && Sorted(s)
    && (forall i :: 0 <= i < |s| ==> s[i].addr in m && m[s[i].addr] == Route(s[i].owner, s[i].timeout))
    && (forall a :: a in m ==> Has(s, a))
  }

  /** Every position before `at` is below the address, every position from `at` on above it. */
  ghost predicate Gap(s: seq<Entry>, addr: Mac, low: nat, high: nat)
    requires low <= high <= |s|
  {
    && (forall i :: 0 <= i < low ==> Cmp(s[i].addr, addr) < 0)
    && (forall i :: high <= i < |s| ==> Cmp(addr, s[i].addr) < 0)
  }

  /** One step of bisection. */
  lemma Narrow(s: seq<Entry>, addr: Mac, low: nat, cur: nat, high: nat)
    requires Sorted(s) && low <= cur < high <= |s| && Gap(s, addr, low, high)
    ensures Cmp(addr, s[cur].addr) < 0 ==> Gap(s, addr, low, cur)
    ensures Cmp(addr, s[cur].addr) > 0 ==> Gap(s, addr, cur + 1, high)
  {
    forall i | 0 <= i < |s|
      ensures Cmp(addr, s[cur].addr) < 0 && i >= cur ==> Cmp(addr, s[i].addr) < 0
      ensures Cmp(addr, s[cur].addr) > 0 && i <= cur ==> Cmp(s[i].addr, addr) < 0
    {
      CmpLaws(addr, s[cur].addr, s[i].addr);
      CmpLaws(s[i].addr, s[cur].addr, addr);
      CmpLaws(s[cur].addr, addr, addr);
    }
  }

  lemma Absent(s: seq<Entry>, addr: Mac, at: nat)
    requires at <= |s| && Gap(s, addr, at, at)
    ensures !Has(s, addr)
  {
    forall i | 0 <= i < |s|
      ensures s[i].addr != addr
    {
      assert Cmp(s[i].addr, addr) < 0 || Cmp(addr, s[i].addr) < 0;
    }
  }

  /** The table with the entry put in at a position. */
  function Spliced(s: seq<Entry>, e: Entry, at: nat): (t: seq<Entry>)
    requires at <= |s|
    ensures |t| == |s| + 1
    ensures forall i :: 0 <= i <= |s| ==> t[i] == if i < at then s[i] else if i == at then e else s[i - 1]
  {
    s[..at] + [e] + s[at..]
  }

  lemma InsertedSorted(s: seq<Entry>, e: Entry, at: nat)
    requires at <= |s| && Sorted(s) && Gap(s, e.addr, at, at)
    ensures Sorted(Spliced(s, e, at))
  {
    var t := Spliced(s, e, at);
    forall i, j | 0 <= i < j < |t|
      ensures Cmp(t[i].addr, t[j].addr) < 0
    {
      if i != at && j != at {
        assert Cmp(s[if i < at then i else i - 1].addr, s[if j < at then j else j - 1].addr) < 0;
      }
    }
  }

  lemma SplicedHas(s: seq<Entry>, e: Entry, at: nat, a: Mac)
    requires at <= |s| && (a == e.addr || Has(s, a))
    ensures Has(Spliced(s, e, at), a)
  {
    var t := Spliced(s, e, at);
    if a == e.addr {
      assert t[at].addr == a;
    } else {
      var i :| 0 <= i < |s| && s[i].addr == a;
      assert t[if i < at then i else i + 1] == s[i];
    }
  }

  lemma SplicedRoute(s: seq<Entry>, m: map<Mac, Route>, e: Entry, at: nat, i: nat)
    requires at <= |s| && StandsFor(s, m) && !Has(s, e.addr) && i <= |s|
    ensures var t, m' := Spliced(s, e, at), m[e.addr := Route(e.owner, e.timeout)];
      t[i].addr in m' && m'[t[i].addr] == Route(t[i].owner, t[i].timeout)
  {
    if i != at {
      var k := if i < at then i else i - 1;
      assert Spliced(s, e, at)[i] == s[k];
    }
  }

  lemma Inserted(s: seq<Entry>, m: map<Mac, Route>, e: Entry, at: nat)
    requires at <= |s| && StandsFor(s, m) && Gap(s, e.addr, at, at)
    ensures e.addr !in m && StandsFor(Spliced(s, e, at), m[e.addr := Route(e.owner, e.timeout)])
  {
    var t, m' := Spliced(s, e, at), m[e.addr := Route(e.owner, e.timeout)];
    Absent(s, e.addr, at);
    InsertedSorted(s, e, at);
    forall a | a in m'
      ensures Has(t, a)
    {
      SplicedHas(s, e, at, a);
    }
    forall i | 0 <= i < |t|
      ensures t[i].addr in m' && m'[t[i].addr] == Route(t[i].owner, t[i].timeout)
    {
      SplicedRoute(s, m, e, at, i);
    }
  }

  lemma Replaced(s: seq<Entry>, m: map<Mac, Route>, at: nat, owner: Owner, timeout: int)
    requires at < |s| && StandsFor(s, m)
    ensures StandsFor(s[at := Entry(s[at].addr, owner, timeout)], m[s[at].addr := Route(owner, timeout)])
  {
    var t := s[at := Entry(s[at].addr, owner, timeout)];
    SameAddresses(s, t);
    forall i | 0 <= i < |t| && i != at
      ensures s[i].addr != s[at].addr
    {
      CmpLaws(s[i].addr, s[at].addr, s[i].addr);
    }
  }

  lemma SameAddresses(s: seq<Entry>, t: seq<Entry>)
    requires |s| == |t| && forall i :: 0 <= i < |s| ==> t[i].addr == s[i].addr
    ensures Sorted(s) ==> Sorted(t)
    ensures forall a :: Has(s, a) ==> Has(t, a)
  {
    forall a | Has(s, a)
      ensures Has(t, a)
    {
      var i :| 0 <= i < |s| && s[i].addr == a;
      assert t[i].addr == a;
    }
  }

  /** The entries that are kept, in order. */
  function Filter(s: seq<Entry>, keep: Entry -> bool): seq<Entry> {
    if s == [] then []
    else Filter(s[..|s| - 1], keep) + (if keep(s[|s| - 1]) then [s[|s| - 1]] else [])
  }

  lemma {:induction false} FilterLaws(s: seq<Entry>, keep: Entry -> bool)
    ensures |Filter(s, keep)| <= |s|
    ensures forall e :: e in Filter(s, keep) <==> e in s && keep(e)
  {
    if s != [] {
      FilterLaws(s[..|s| - 1], keep);
      assert s == s[..|s| - 1] + [s[|s| - 1]];
    }
  }

  lemma {:induction false} FilterSorted(s: seq<Entry>, keep: Entry -> bool)
    requires Sorted(s)
    ensures Sorted(Filter(s, keep))
  {
    if s != [] {
      FilterSorted(s[..|s| - 1], keep);
      FilterLaws(s[..|s| - 1], keep);
      var front := Filter(s[..|s| - 1], keep);
      forall i | 0 <= i < |front|
        ensures Cmp(front[i].addr, s[|s| - 1].addr) < 0
      {
        assert front[i] in s[..|s| - 1];
      }
    }
  }

  /** One step of squeezing: entry i is dropped, or moved down over the holes left so far. */
  lemma SqueezeStep(before: seq<Entry>, s: seq<Entry>, i: nat, deleted: nat, keep: Entry -> bool)
    requires deleted <= i < |s| == |before|
    requires s[..i - deleted] == Filter(before[..i], keep) && s[i..] == before[i..]
    ensures !keep(s[i]) ==> s[..i - deleted] == Filter(before[..i + 1], keep)
    ensures keep(s[i]) ==> s[i - deleted := s[i]][..i + 1 - deleted] == Filter(before[..i + 1], keep)
    ensures s[i + 1..] == before[i + 1..] && s[i - deleted := s[i]][i + 1..] == before[i + 1..]
  {
    assert before[..i + 1][..i] == before[..i];
    assert s[i..][0] == before[i..][0];
    assert s[i..][1..] == s[i + 1..] && before[i..][1..] == before[i + 1..];
    assert s[i - deleted := s[i]][..i + 1 - deleted] == s[..i - deleted] + [s[i]];
  }

  /** Squeezes out the entries that are not kept, moving the others down over the holes. */
  method Squeeze(table: seq<Entry>, keep: Entry -> bool) returns (s: seq<Entry>)
    ensures s == Filter(table, keep)
  {
    s := table;
    var i, deleted := 0, 0;
    while i < |s|
      invariant 0 <= deleted <= i <= |s| == |table|
      invariant s[..i - deleted] == Filter(table[..i], keep)
      invariant s[i..] == table[i..]
    {
      SqueezeStep(table, s, i, deleted, keep);
      if !keep(s[i]) {
        deleted := deleted + 1;
      } else if deleted > 0 {
        s := s[i - deleted := s[i]];
      } else {
        assert s[i := s[i]] == s;
      }
      i := i + 1;
    }
    assert table[..i] == table;
    s := s[..|s| - deleted];
  }

  /** Finds the address, or the place where it belongs. */
  method Bisect(s: seq<Entry>, addr: Mac) returns (found: bool, at: nat)
    requires Sorted(s)
    ensures found ==> at < |s| && s[at].addr == addr
    ensures !found ==> at <= |s| && Gap(s, addr, at, at) && !Has(s, addr)
  {
    var min, max := 0, |s|;
    while max > min
      invariant 0 <= min <= max <= |s| && Gap(s, addr, min, max)
    {
      var cur := min + (max - min) / 2;
      var cmp := Cmp(addr, s[cur].addr);
      if cmp == 0 {
        return true, cur;
      }
      Narrow(s, addr, min, cur, max);
      if cmp < 0 {
        max := cur;
      } else {
        min := cur + 1;
      }
    }
    Absent(s, addr, min);
    return false, min;
  }

  ghost predicate Stays(keep: Entry -> bool, addr: Mac, r: Route) {
    keep(Entry(addr, r.owner, r.timeout))
  }

  ghost function Kept(m: map<Mac, Route>, keep: Entry -> bool): map<Mac, Route> {
    map a | a in m && Stays(keep, a, m[a]) :: m[a]
  }

  /** Filtering a table restricts its meaning to the routes that are kept. */
  lemma Filtered(s: seq<Entry>, m: map<Mac, Route>, keep: Entry -> bool)
    requires StandsFor(s, m)
    ensures StandsFor(Filter(s, keep), Kept(m, keep))
  {
    var t := Filter(s, keep);
    FilterLaws(s, keep);
    FilterSorted(s, keep);
    forall i | 0 <= i < |t|
      ensures t[i].addr in Kept(m, keep) && m[t[i].addr] == Route(t[i].owner, t[i].timeout)
    {
      assert t[i] in s;
    }
    forall a | a in Kept(m, keep)
      ensures Has(t, a)
    {
      assert Has(s, a);
      var i :| 0 <= i < |s| && s[i].addr == a;
      assert s[i] in t;
    }
  }

  // ------------------------------------------------------------- the table and the peers it refers to

  /**
   * What learning an address does to its route. An address learned from the relay of the established peer it
   * already belongs to stays with that peer and is only refreshed.
   */
  ghost predicate StaysWith(m: map<Mac, Route>, established: set<Peer>, relay: map<Peer, Owner>, addr: Mac,
      owner: Owner)
  {
    && addr in m && m[addr].owner.Remote?
    && RelayOf(relay, m[addr].owner.peer) == owner
    && m[addr].owner.peer in established
  }

  /** The relay of a peer; a peer without one has none, which is how the local side is written as well. */
  function RelayOf(relay: map<Peer, Owner>, peer: Peer): Owner {
    if peer in relay then relay[peer] else Local
  }

  ghost function Learned(m: map<Mac, Route>, established: set<Peer>, relay: map<Peer, Owner>,
      addr: Mac, owner: Owner, now: int): map<Mac, Route>
  {
    m[addr := Route(if StaysWith(m, established, relay, addr, owner) then m[addr].owner else owner, now + STALE_TIME)]
  }

  /** Learning an address that has an entry. */
  lemma LearnedAgain(s: seq<Entry>, m: map<Mac, Route>, at: nat, established: set<Peer>, relay: map<Peer, Owner>,
      owner: Owner, now: int, kept: Owner, t: seq<Entry>, next: map<Mac, Route>)
    requires StandsFor(s, m) && at < |s| && next == Learned(m, established, relay, s[at].addr, owner, now)
    requires kept == if StaysWith(m, established, relay, s[at].addr, owner) then s[at].owner else owner
    requires t == s[at := Entry(s[at].addr, kept, now + STALE_TIME)]
    ensures StandsFor(t, next)
  {
    assert s[at].addr in m && m[s[at].addr].owner == s[at].owner;
    assert next == m[s[at].addr := Route(kept, now + STALE_TIME)];
    Replaced(s, m, at, kept, now + STALE_TIME);
  }

  /** Learning an address that has none; it belongs at the place `at`. */
  lemma LearnedFirst(s: seq<Entry>, m: map<Mac, Route>, addr: Mac, at: nat, established: set<Peer>,
      relay: map<Peer, Owner>, owner: Owner, now: int, t: seq<Entry>, next: map<Mac, Route>)
    requires StandsFor(s, m) && at <= |s| && Gap(s, addr, at, at)
    requires next == Learned(m, established, relay, addr, owner, now)
    requires t == Spliced(s, Entry(addr, owner, now + STALE_TIME), at)
    ensures StandsFor(t, next)
  {
    Inserted(s, m, Entry(addr, owner, now + STALE_TIME), at);
    assert next == m[addr := Route(owner, now + STALE_TIME)];
  }

  /** Every route leads to the local side or an established peer. */
  ghost predicate Reachable(m: map<Mac, Route>, established: set<Peer>) {
    forall a :: a in m && m[a].owner.Remote? ==> m[a].owner.peer in established
  }

  lemma LearnedReachable(m: map<Mac, Route>, established: set<Peer>, relay: map<Peer, Owner>,
      addr: Mac, owner: Owner, now: int)
    requires Reachable(m, established) && (owner.Remote? ==> owner.peer in established)
    ensures Reachable(Learned(m, established, relay, addr, owner, now), established)
  {
  }

  lemma ResetReachable(m: map<Mac, Route>, established: set<Peer>, peer: Peer)
    requires Reachable(m, established)
    ensures Reachable(WithoutPeer(m, peer), established - {peer})
  {
  }

  // ------------------------------------------------------------- steps and runs

  datatype World = World(routes: map<Mac, Route>, established: set<Peer>, relay: map<Peer, Owner>, now: int)

  datatype Step =
    | Tick(millis: nat)
    | Establish(peer: Peer)
    | SetRelay(peer: Peer, relay: Owner)
    | Learn(addr: Mac, owner: Owner)
    | Clean
    | ResetPeer(peer: Peer)

  /** Learning on behalf of a peer that is not established is a bug the daemon exits on. */
  predicate Legal(s: Step, established: set<Peer>) {
    s.Learn? && s.owner.Remote? ==> s.owner.peer in established
  }

  ghost function Fresh(m: map<Mac, Route>, now: int): map<Mac, Route> {
    map a | a in m && m[a].timeout > now :: m[a]
  }

  ghost function WithoutPeer(m: map<Mac, Route>, peer: Peer): map<Mac, Route> {
    map a | a in m && m[a].owner != Remote(peer) :: m[a]
  }

  /** What a step does to the routes, without regard to how they are stored. */
  ghost function Next(w: World, s: Step): World {
    match s
    case Tick(millis) => w.(now := w.now + millis)
    case Establish(peer) => w.(established := w.established + {peer})
    case SetRelay(peer, relay) => w.(relay := w.relay[peer := relay])
    case Learn(addr, owner) => w.(routes := Learned(w.routes, w.established, w.relay, addr, owner, w.now))
    case Clean => w.(routes := Fresh(w.routes, w.now))
    case ResetPeer(peer) => w.(routes := WithoutPeer(w.routes, peer), established := w.established - {peer})
  }

  ghost function After(w: World, steps: seq<Step>): World {
    if steps == [] then w else Next(After(w, steps[..|steps| - 1]), steps[|steps| - 1])
  }

  ghost predicate LegalAt(w: World, steps: seq<Step>, n: nat)
    requires n < |steps|
  {
    Legal(steps[n], After(w, steps[..n]).established)
  }

  class Table {
    var entries: seq<Entry>
    var now: int
    var established: set<Peer>
    var relay: map<Peer, Owner>
    ghost var routes: map<Mac, Route>

    ghost predicate Valid()
      reads this
    {
      StandsFor(entries, routes) && Reachable(routes, established)
    }

    constructor ()
      ensures Valid() && routes == map[] && established == {}
    {
      entries, now, established, relay, routes := [], 0, {}, map[], map[];
    }

    method Add(addr: Mac, owner: Owner)
      requires Valid() && (owner.Remote? ==> owner.peer in established)
      modifies `entries, `routes
      ensures Valid() && routes == Learned(old(routes), established, relay, addr, owner, now)
    {
      LearnedReachable(routes, established, relay, addr, owner, now);
      var found, at := Bisect(entries, addr);
      ghost var next := Learned(routes, established, relay, addr, owner, now);
      var t;
      if found {
        t := AddAgain(at, owner, next);
      } else {
        t := Spliced(entries, Entry(addr, owner, now + STALE_TIME), at);
        LearnedFirst(entries, routes, addr, at, established, relay, owner, now, t, next);
      }
      entries, routes := t, next;
    }

    /** An address that has an entry stays with the peer behind its relay, or goes where it was learned. */
    method AddAgain(at: nat, owner: Owner, ghost next: map<Mac, Route>) returns (t: seq<Entry>)
      requires StandsFor(entries, routes) && at < |entries|
      requires next == Learned(routes, established, relay, entries[at].addr, owner, now)
      ensures StandsFor(t, next)
    {
      var entry := Entry(entries[at].addr, owner, now + STALE_TIME);
      var previous := entries[at].owner;
      if previous.Remote? && RelayOf(relay, previous.peer) == owner && previous.peer in established {
        entry := entry.(owner := previous);
      }
      t := entries[at := entry];
      LearnedAgain(entries, routes, at, established, relay, owner, now, entry.owner, t, next);
    }

    method Find(addr: Mac) returns (found: bool, owner: Owner)
      requires Valid()
      ensures found <==> addr in routes
      ensures found ==> owner == routes[addr].owner
    {
      var at;
      found, at := Bisect(entries, addr);
      owner := if found then entries[at].owner else Local;
    }

    method Compact(keep: Entry -> bool)
      requires StandsFor(entries, routes)
      modifies `entries, `routes
      ensures StandsFor(entries, routes) && routes == Kept(old(routes), keep)
    {
      Filtered(entries, routes, keep);
      entries := Squeeze(entries, keep);
      routes := Kept(routes, keep);
    }

    method Cleanup()
      requires Valid()
      modifies `entries, `routes
      ensures Valid()
      ensures routes == Fresh(old(routes), now)
    {
      var time := now;
      Compact((e: Entry) => e.timeout > time);
    }

    /** A reset peer loses its routes together with its session. */
    method Reset(peer: Peer)
      requires Valid()
      modifies `entries, `routes, `established
      ensures Valid() && established == old(established) - {peer}
      ensures routes == WithoutPeer(old(routes), peer)
    {
      ResetReachable(routes, established, peer);
      Compact((e: Entry) => e.owner != Remote(peer));
      established := established - {peer};
    }

    ghost function State(): World
      reads this
    {
      World(routes, established, relay, now)
    }

    method Perform(s: Step)
      requires Valid() && Legal(s, established)
      modifies this
      ensures Valid() && State() == Next(old(State()), s)
    {
      match s
      case Tick(millis) => now := now + millis;
      case Establish(peer) => established := established + {peer};
      case SetRelay(peer, owner) => relay := relay[peer := owner];
      case Learn(addr, owner) => Add(addr, owner);
      case Clean => Cleanup();
      case ResetPeer(peer) => Reset(peer);
    }

    /** Whatever happens, the vector stays sorted and finds exactly the routes the steps should have left. */
    method Run(steps: seq<Step>)
      requires Valid() && forall n :: 0 <= n < |steps| ==> LegalAt(State(), steps, n)
      modifies this
      ensures Valid() && State() == After(old(State()), steps)
    {
      for n := 0 to |steps|
        invariant Valid() && State() == After(old(State()), steps[..n])
      {
        assert LegalAt(old(State()), steps, n);
        assert steps[..n + 1][..n] == steps[..n];
        Perform(steps[n]);
      }
      assert steps[..|steps|] == steps;
    }
  }

  // ------------------------------------------------------------- what the table promises

  /** The step learns the address where the peer's relay is only, and neither resets the peer nor changes its relay. */
  predicate SeenBehind(s: Step, addr: Mac, peer: Peer, relay: Owner) {
    match s
    case Learn(a, owner) => a == addr ==> owner == relay
    case ResetPeer(p) => p != peer
    case SetRelay(p, r) => p == peer ==> r == relay
    case _ => true
  }

  /** How long the address lasts that was last learned in the run, or before it. */
  ghost function LastsUntil(w: World, steps: seq<Step>, addr: Mac): int
    requires addr in w.routes
  {
    if steps == [] then w.routes[addr].timeout
    else
      var before, s := steps[..|steps| - 1], steps[|steps| - 1];
      if s.Learn? && s.addr == addr then After(w, before).now + STALE_TIME else LastsUntil(w, before, addr)
  }

  /** Step n is not a cleanup that finds the address stale. */
  ghost predicate InTime(w: World, steps: seq<Step>, addr: Mac, n: nat)
    requires addr in w.routes && n < |steps|
  {
    steps[n].Clean? ==> After(w, steps[..n]).now < LastsUntil(w, steps[..n], addr)
  }

  ghost predicate AllInTime(w: World, steps: seq<Step>, addr: Mac)
    requires addr in w.routes
  {
    forall n :: 0 <= n < |steps| ==> InTime(w, steps, addr, n)
  }

  lemma InTimeNext(w: World, steps: seq<Step>, addr: Mac)
    requires addr in w.routes && steps != []
    ensures AllInTime(w, steps, addr) <==>
      AllInTime(w, steps[..|steps| - 1], addr) && InTime(w, steps, addr, |steps| - 1)
  {
    var before := steps[..|steps| - 1];
    forall n | 0 <= n < |before|
      ensures InTime(w, steps, addr, n) <==> InTime(w, before, addr, n)
    {
      assert steps[..n] == before[..n];
    }
  }

  ghost predicate BelongsTo(w: World, addr: Mac, peer: Peer) {
    addr in w.routes && w.routes[addr].owner == Remote(peer)
  }

  /** The address is with the peer, or has gone to the relay for good. */
  ghost predicate HeldOrLost(u: World, addr: Mac, peer: Peer, relay: Owner, held: bool, until: int) {
    && peer in u.established && RelayOf(u.relay, peer) == relay
    && (held ==> BelongsTo(u, addr, peer) && u.routes[addr].timeout == until)
    && (!held && addr in u.routes ==> u.routes[addr].owner == relay)
  }

  lemma BehindStep(u: World, s: Step, addr: Mac, peer: Peer, relay: Owner, held: bool, until: int)
    requires HeldOrLost(u, addr, peer, relay, held, until) && SeenBehind(s, addr, peer, relay)
    ensures HeldOrLost(Next(u, s), addr, peer, relay, held && (s.Clean? ==> u.now < until),
      if s.Learn? && s.addr == addr then u.now + STALE_TIME else until)
  {
  }

  lemma {:induction false} BehindRun(w: World, steps: seq<Step>, addr: Mac, peer: Peer, relay: Owner)
    requires BelongsTo(w, addr, peer) && peer in w.established && RelayOf(w.relay, peer) == relay
    requires forall s :: s in steps ==> SeenBehind(s, addr, peer, relay)
    ensures HeldOrLost(After(w, steps), addr, peer, relay, AllInTime(w, steps, addr), LastsUntil(w, steps, addr))
  {
    if steps != [] {
      var n := |steps| - 1;
      assert steps[n] in steps;
      BehindRun(w, steps[..n], addr, peer, relay);
      InTimeNext(w, steps, addr);
      BehindStep(After(w, steps[..n]), steps[n], addr, peer, relay, AllInTime(w, steps[..n], addr),
        LastsUntil(w, steps[..n], addr));
    }
  }

  /**
   * An address of an established peer that is seen where the peer's relay is stays with the peer, and each time its
   * route is refreshed. It goes to the relay exactly if it is not seen anywhere until it is cleaned up.
   */
  lemma RelayedStays(w: World, steps: seq<Step>, addr: Mac, peer: Peer, relay: Owner)
    requires BelongsTo(w, addr, peer) && peer in w.established && RelayOf(w.relay, peer) == relay != Remote(peer)
    requires forall s :: s in steps ==> SeenBehind(s, addr, peer, relay)
    ensures BelongsTo(After(w, steps), addr, peer) <==> AllInTime(w, steps, addr)
    ensures addr in After(w, steps).routes && !AllInTime(w, steps, addr) ==> After(w, steps).routes[addr].owner == relay
  {
    BehindRun(w, steps, addr, peer, relay);
  }

  /**
   * An address seen on the local side does not come home while it belongs to an established peer without a relay:
   * the missing relay is taken for the local side, which is the missing peer.
   */
  lemma LocalDoesNotReclaim(w: World, steps: seq<Step>, addr: Mac, peer: Peer)
    requires BelongsTo(w, addr, peer) && peer in w.established && peer !in w.relay
    requires forall s :: s in steps ==> SeenBehind(s, addr, peer, Local)
    ensures BelongsTo(After(w, steps), addr, peer) <==> AllInTime(w, steps, addr)
  {
    RelayedStays(w, steps, addr, peer, Local);
  }

  /** Where the address was learned last in the run, or the owner it had before. */
  ghost function LastLearned(owner: Owner, steps: seq<Step>, addr: Mac): Owner {
    if steps == [] then owner
    else
      var s := steps[|steps| - 1];
      if s.Learn? && s.addr == addr then s.owner else LastLearned(owner, steps[..|steps| - 1], addr)
  }

  /** Step n does not learn the address from the relay of the established peer that has it. */
  ghost predicate NotBehind(w: World, steps: seq<Step>, addr: Mac, n: nat)
    requires n < |steps|
  {
    var u, s := After(w, steps[..n]), steps[n];
    s.Learn? && s.addr == addr && addr in u.routes && u.routes[addr].owner.Remote? ==>
      RelayOf(u.relay, u.routes[addr].owner.peer) != s.owner || u.routes[addr].owner.peer !in u.established
  }

  /**
   * An address follows the host: unless it is learned from the relay of the peer it belongs to, it belongs to whoever
   * it was learned from last.
   */
  lemma {:induction false} AddressMoves(w: World, steps: seq<Step>, addr: Mac, owner: Owner)
    requires addr in w.routes ==> w.routes[addr].owner == owner
    requires forall n :: 0 <= n < |steps| ==> NotBehind(w, steps, addr, n)
    ensures addr in After(w, steps).routes ==> After(w, steps).routes[addr].owner == LastLearned(owner, steps, addr)
  {
    if steps != [] {
      var n := |steps| - 1;
      forall k | 0 <= k < n
        ensures NotBehind(w, steps[..n], addr, k)
      {
        assert NotBehind(w, steps, addr, k) && steps[..n][..k] == steps[..k];
      }
      AddressMoves(w, steps[..n], addr, owner);
      assert NotBehind(w, steps, addr, n);
    }
  }

  ghost predicate Bounded(w: World) {
    forall a :: a in w.routes ==> w.routes[a].timeout <= w.now + STALE_TIME
  }

  lemma {:induction false} RunInvariants(w: World, steps: seq<Step>)
    requires Reachable(w.routes, w.established) && Bounded(w)
    requires forall n :: 0 <= n < |steps| ==> LegalAt(w, steps, n)
    ensures var u := After(w, steps); Reachable(u.routes, u.established) && Bounded(u) && u.now >= w.now
  {
    if steps != [] {
      var n := |steps| - 1;
      forall k | 0 <= k < n
        ensures LegalAt(w, steps[..n], k)
      {
        assert LegalAt(w, steps, k) && steps[..n][..k] == steps[..k];
      }
      RunInvariants(w, steps[..n]);
      assert LegalAt(w, steps, n);
    }
  }

  /** The address is not learned in the run. */
  predicate Silent(steps: seq<Step>, addr: Mac) {
    forall s :: s in steps && s.Learn? ==> s.addr != addr
  }

  /** In a run that does not learn an address, its route stays as it is or goes, and never comes back. */
  lemma {:induction false} SilentKeeps(w: World, steps: seq<Step>, addr: Mac)
    requires Silent(steps, addr)
    ensures var u := After(w, steps); addr in u.routes ==> addr in w.routes && u.routes[addr] == w.routes[addr]
  {
    if steps != [] {
      assert steps[|steps| - 1] in steps;
      SilentKeeps(w, steps[..|steps| - 1], addr);
    }
  }

  /** An address nobody used for five minutes is forgotten by the next cleanup. */
  lemma StaleIsForgotten(w: World, steps: seq<Step>, addr: Mac)
    requires Bounded(w) && Silent(steps, addr) && After(w, steps).now >= w.now + 300000
    ensures addr !in Next(After(w, steps), Clean).routes
  {
    SilentKeeps(w, steps, addr);
  }

  /**
   * A route is lost before its timeout only with its peer: a run without resets of the peer and without news keeps
   * it.
   */
  lemma {:induction false} RouteIsKept(w: World, steps: seq<Step>, addr: Mac)
    requires addr in w.routes && Silent(steps, addr)
    requires forall s :: s in steps && s.ResetPeer? ==> w.routes[addr].owner != Remote(s.peer)
    requires forall n :: 0 <= n <= |steps| ==> After(w, steps[..n]).now < w.routes[addr].timeout
    ensures addr in After(w, steps).routes && After(w, steps).routes[addr] == w.routes[addr]
  {
    if steps != [] {
      var n := |steps| - 1;
      assert steps[n] in steps;
      forall k | 0 <= k <= n
        ensures After(w, steps[..n][..k]).now < w.routes[addr].timeout
      {
        assert steps[..n][..k] == steps[..k];
      }
      RouteIsKept(w, steps[..n], addr);
      assert After(w, steps[..n]).now < w.routes[addr].timeout;
    }
  }

  /** A learned address has a route for five minutes, unless the peer it leads to is reset. */
  lemma LearnedIsRouted(w: World, addr: Mac, owner: Owner, steps: seq<Step>)
    requires Silent(steps, addr)
    requires var u := Next(w, Learn(addr, owner));
      && (addr in u.routes ==> forall s :: s in steps && s.ResetPeer? ==> u.routes[addr].owner != Remote(s.peer))
      && forall n :: 0 <= n <= |steps| ==> After(u, steps[..n]).now < w.now + 300000
    ensures addr in After(Next(w, Learn(addr, owner)), steps).routes
  {
    RouteIsKept(Next(w, Learn(addr, owner)), steps, addr);
  }
}
