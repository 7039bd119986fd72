/**
  The limit on handshakes sent to unknown addresses.

  An address that was sent a handshake is remembered in one of several small
  tables. Each table stands for one slice of time; which slot an address uses in
  a table depends on the slice, so that colliding addresses part again. All is
  proved for any interval, any number of tables and slots and any hash that
  respects address equality, under a condition on the numbers that is exact.
*/
module UnknownBackoff {
  import opened Addresses

  datatype Entry = Entry(address: Address, timeout: int)

  /**
    The dimensions of the limiter: how long an address has to wait, how many tables there are and how many slots
    in each, and the arithmetic on time. `slice` numbers the slice of a time, `table` gives the table of a slice,
    `stay` how long an entry stays that is written to the i-th slot of its address, counting slices back from now,
    and `place` the slot of an address in the table of a slice.
  */
  datatype Plan = Plan(interval: int, tables: nat, entries: nat, slice: int -> int, table: int -> nat,
                       stay: nat -> int, place: (int, Address) -> nat)

  ghost predicate Fits(p: Plan) {
    && p.tables >= 1 && p.entries >= 1
    && (forall s: int :: p.table(s) < p.tables)
    && (forall s: int, a: Address :: p.place(s, a) < p.entries)
  }

  type Layout = p: Plan | Fits(p)
    ghost witness Plan(1, 1, 1, (now: int) => 0, (s: int) => 0, (i: nat) => 1, (s: int, a: Address) => 0)

  ghost predicate Respects(p: Plan) {
    forall slice: int, a: Address, b: Address {:trigger p.place(slice, a), p.place(slice, b)} ::
      AddressEqual(a, b) && !a.Unspec? ==> p.place(slice, a) == p.place(slice, b)
  }

  /** Later times are in later slices. */
  ghost predicate Ordered(p: Plan, now: int, later: int) {
    now <= later ==> p.slice(now) <= p.slice(later)
  }

  /** An entry written now ends before its table is used for another slice, and within the interval. */
  ghost predicate Lasts(p: Plan, now: int, i: nat) {
    i < p.tables ==> p.slice(now + p.stay(i) - 1) < p.slice(now) - i + p.tables && p.stay(i) <= p.interval
  }

  /** What the arithmetic of a plan has to give. */
  ghost predicate Sound(p: Plan) {
    && Respects(p)
    && (forall now: int, later: int {:trigger Ordered(p, now, later)} :: Ordered(p, now, later))
    && (forall now: int, i: nat {:trigger Lasts(p, now, i)} :: Lasts(p, now, i))
  }

  // ------------------------------------------------------------- the steps

  type Tables = seq<seq<Entry>>

  ghost predicate Shaped(p: Layout, ts: Tables) {
    |ts| == p.tables && forall t :: 0 <= t < p.tables ==> |ts[t]| == p.entries
  }

  /** The clock and the tables. */
  datatype World = World(now: int, tables: Tables)

  predicate Live(e: Entry, now: int) {
    e.timeout > now
  }

  /** The entry in the `i`th slot of an address, counting slices back from now. */
  function SlotEntry(p: Layout, w: World, a: Address, i: nat): Entry
    requires Shaped(p, w.tables)
  {
    var slice := p.slice(w.now) - i;
    w.tables[p.table(slice)][p.place(slice, a)]
  }

  predicate Matches(p: Layout, w: World, a: Address, i: nat)
    requires Shaped(p, w.tables)
  {
    var e := SlotEntry(p, w, a, i);
    Live(e, w.now) && AddressEqual(a, e.address)
  }

  /** A handshake to the address is refused: one of its slots remembers it. */
  predicate Refuses(p: Layout, w: World, a: Address)
    requires Shaped(p, w.tables)
  {
    exists i :: 0 <= i < p.tables && Matches(p, w, a, i)
  }

  /** The first of the slots 0..n-1 that has timed out, or `n`. */
  function FirstEmpty(p: Layout, w: World, a: Address, n: nat): (r: nat)
    requires Shaped(p, w.tables)
    ensures r <= n
    ensures r < n ==> !Live(SlotEntry(p, w, a, r), w.now)
    ensures forall j :: 0 <= j < r ==> Live(SlotEntry(p, w, a, j), w.now)
  {
    if n == 0 then 0
    else
      var r := FirstEmpty(p, w, a, n - 1);
      if r < n - 1 || !Live(SlotEntry(p, w, a, n - 1), w.now) then r else n
  }

  /** The slot a new address is written to: the first that has timed out, else the random one. */
  function Chosen(p: Layout, w: World, a: Address, random: nat): (i: nat)
    requires Shaped(p, w.tables) && random < p.tables
    ensures i < p.tables
  {
    var i := FirstEmpty(p, w, a, p.tables);
    if i == p.tables then random else i
  }

  function Write(p: Layout, ts: Tables, t: nat, s: nat, e: Entry): (r: Tables)
    requires Shaped(p, ts) && t < p.tables && s < p.entries
    ensures Shaped(p, r)
  {
    ts[t := ts[t][s := e]]
  }

  /** The tables after a packet from an unknown address without its port. */
  function Noted(p: Layout, w: World, a: Address, random: nat): (r: Tables)
    requires Shaped(p, w.tables) && random < p.tables
    ensures Shaped(p, r)
  {
    if Refuses(p, w, a) then w.tables
    else
      var i := Chosen(p, w, a, random);
      var slice := p.slice(w.now) - i;
      Write(p, w.tables, p.table(slice), p.place(slice, a), Entry(a, w.now + p.stay(i)))
  }

  /** The first of the slots 0..n-1 that remembers the address, or `n`. */
  function FirstMatch(p: Layout, w: World, a: Address, n: nat): (r: nat)
    requires Shaped(p, w.tables)
    ensures r <= n
    ensures r < n ==> Matches(p, w, a, r)
    ensures forall j :: 0 <= j < r ==> !Matches(p, w, a, j)
  {
    if n == 0 then 0
    else
      var r := FirstMatch(p, w, a, n - 1);
      if r < n - 1 || Matches(p, w, a, n - 1) then r else n
  }

  /** The tables after an address has been purged. */
  function Purged(p: Layout, w: World, a: Address): (r: Tables)
    requires Shaped(p, w.tables)
    ensures Shaped(p, r)
  {
    var i := FirstMatch(p, w, a, p.tables);
    if i == p.tables then w.tables
    else
      var slice := p.slice(w.now) - i;
      Write(p, w.tables, p.table(slice), p.place(slice, a), SlotEntry(p, w, a, i).(timeout := w.now))
  }

  lemma {:induction false} MatchStays(p: Layout, w: World, a: Address, i: nat, n: nat)
    requires Shaped(p, w.tables) && i < n && Matches(p, w, a, i) && FirstMatch(p, w, a, i) == i
    ensures FirstMatch(p, w, a, n) == i
  {
    if i < n - 1 { MatchStays(p, w, a, i, n - 1); }
  }

  class Limiter {
    const p: Layout
    var now: int
    var tables: Tables

    constructor (p: Layout, now: int)
      ensures this.p == p && this.now == now && Shaped(p, tables)
      ensures forall t, s :: 0 <= t < p.tables && 0 <= s < p.entries ==> !Live(tables[t][s], now)
    {
      this.p, this.now := p, now;
      tables := seq(p.tables, _ => seq(p.entries, _ => Entry(Unspec, now)));
    }

    /** Looks for a live entry of the address, and for the first slot that is free for it. */
    method Search(a: Address) returns (refused: bool, firstEmpty: nat)
      requires Shaped(p, tables)
      ensures refused == Refuses(p, World(now, tables), a)
      ensures !refused ==> firstEmpty == FirstEmpty(p, World(now, tables), a, p.tables)
    {
      ghost var w := World(now, tables);
      var base := p.slice(now);
      firstEmpty := p.tables;
      for i := 0 to p.tables
        invariant firstEmpty == p.tables || firstEmpty < i
        invariant forall j :: 0 <= j < i ==> !Matches(p, w, a, j)
        invariant FirstEmpty(p, w, a, i) == if firstEmpty == p.tables then i else firstEmpty
      {
        var slice := base - i;
        var t := tables[p.table(slice)][p.place(slice, a)];
        assert t == SlotEntry(p, w, a, i);
        if t.timeout <= now {
          if firstEmpty == p.tables {
            firstEmpty := i;
          }
          continue;
        }
        if !AddressEqual(a, t.address) {
          continue;
        }
        assert Matches(p, w, a, i);
        return true, firstEmpty;
      }
      return false, firstEmpty;
    }

    /** Says whether a handshake to the address must wait, and remembers the address if not. */
    method Backoff(addr: Address, random: nat) returns (refused: bool)
      requires Shaped(p, tables) && !addr.Unspec? && random < p.tables
      modifies this`tables
      ensures Shaped(p, tables)
      ensures refused == Refuses(p, World(now, old(tables)), addr.WithPort(0))
      ensures tables == Noted(p, World(now, old(tables)), addr.WithPort(0), random)
    {
      var a := addr.WithPort(0);
      var firstEmpty;
      refused, firstEmpty := Search(a);
      if refused {
        return;
      }
      if firstEmpty == p.tables {
        firstEmpty := random;
      }
      var slice := p.slice(now) - firstEmpty;
      var t, s := p.table(slice), p.place(slice, a);
      tables := tables[t := tables[t][s := Entry(a, now + p.stay(firstEmpty))]];
    }

    /** The first slot of the address that remembers it. */
    method FindLive(a: Address) returns (first: nat)
      requires Shaped(p, tables)
      ensures first == FirstMatch(p, World(now, tables), a, p.tables)
    {
      ghost var w := World(now, tables);
      var base := p.slice(now);
      for i := 0 to p.tables
        invariant FirstMatch(p, w, a, i) == i
      {
        var slice := base - i;
        var t := tables[p.table(slice)][p.place(slice, a)];
        assert t == SlotEntry(p, w, a, i);
        if t.timeout <= now {
          continue;
        }
        if !AddressEqual(a, t.address) {
          continue;
        }
        assert Matches(p, w, a, i);
        MatchStays(p, w, a, i, p.tables);
        return i;
      }
      return p.tables;
    }

    /** Allows handshakes to an address again. */
    method Purge(addr: Address)
      requires Shaped(p, tables) && !addr.Unspec?
      modifies this`tables
      ensures Shaped(p, tables) && tables == Purged(p, World(now, old(tables)), addr.WithPort(0))
    {
      var a := addr.WithPort(0);
      var i := FindLive(a);
      if i < p.tables {
        var slice := p.slice(now) - i;
        var t, s := p.table(slice), p.place(slice, a);
        tables := tables[t := tables[t][s := tables[t][s].(timeout := now)]];
      }
    }
  }

  // ---------------------------------------------------- what every run keeps

  /**
    An entry is in the table and the slot of its address for a slice that is still searched, and stays searched
    until the entry times out, which is within the interval.
  */
  ghost predicate BelongsTo(p: Layout, now: int, t: nat, s: nat, e: Entry, slice: int) {
    && p.slice(now) - p.tables < slice <= p.slice(now) && t == p.table(slice) && s == p.place(slice, e.address)
    && p.slice(e.timeout - 1) < slice + p.tables
  }

  ghost predicate Belongs(p: Layout, now: int, t: nat, s: nat, e: Entry) {
    && !e.address.Unspec? && e.timeout <= now + p.interval
    && exists slice :: BelongsTo(p, now, t, s, e, slice)
  }

  ghost predicate LiveAt(p: Layout, w: World, t: int, s: int) {
    Shaped(p, w.tables) && 0 <= t < p.tables && 0 <= s < p.entries && Live(w.tables[t][s], w.now)
  }

  /** Every live entry belongs where it is, and no address is remembered twice. */
  ghost predicate Inv(p: Layout, w: World) {
    && Shaped(p, w.tables) && Sound(p)
    && (forall t, s :: LiveAt(p, w, t, s) ==> Belongs(p, w.now, t, s, w.tables[t][s]))
    && (forall t, s, t', s' :: LiveAt(p, w, t, s) && LiveAt(p, w, t', s') && (t, s) != (t', s') ==>
          !AddressEqual(w.tables[t][s].address, w.tables[t'][s'].address))
  }

  /** As long as an entry is live, it belongs to the same slice. */
  lemma BelongsLater(p: Layout, now: int, later: int, t: nat, s: nat, e: Entry)
    requires Sound(p) && now <= later < e.timeout && Belongs(p, now, t, s, e)
    ensures Belongs(p, later, t, s, e)
  {
    var slice :| BelongsTo(p, now, t, s, e, slice);
    assert Ordered(p, now, later) && Ordered(p, later, e.timeout - 1);
    assert BelongsTo(p, later, t, s, e, slice);
  }

  lemma TimePasses(p: Layout, w: World, millis: nat)
    requires Inv(p, w)
    ensures Inv(p, w.(now := w.now + millis))
  {
    var w' := w.(now := w.now + millis);
    forall t, s | LiveAt(p, w', t, s) ensures Belongs(p, w'.now, t, s, w'.tables[t][s]) {
      assert LiveAt(p, w, t, s);
      BelongsLater(p, w.now, w'.now, t, s, w.tables[t][s]);
    }
    forall t, s, t', s' | LiveAt(p, w', t, s) && LiveAt(p, w', t', s') && (t, s) != (t', s')
      ensures !AddressEqual(w'.tables[t][s].address, w'.tables[t'][s'].address)
    {
      assert LiveAt(p, w, t, s) && LiveAt(p, w, t', s');
    }
  }

  /** A live entry is found among the slots of its address. */
  lemma LiveIsFound(p: Layout, w: World, t: nat, s: nat, a: Address)
    requires Inv(p, w) && LiveAt(p, w, t, s) && AddressEqual(a, w.tables[t][s].address)
    ensures Refuses(p, w, a)
  {
    var e := w.tables[t][s];
    assert Belongs(p, w.now, t, s, e);
    var slice :| BelongsTo(p, w.now, t, s, e, slice);
    assert p.place(slice, e.address) == p.place(slice, a) by {
      AddressEqualLaws(a, e.address, a);
    }
    assert Matches(p, w, a, p.slice(w.now) - slice);
  }

  /** What a packet writes, and where, when the address is not refused. */
  lemma NotedWrites(p: Layout, w: World, a: Address, random: nat, t: nat, s: nat)
    requires Shaped(p, w.tables) && random < p.tables && !Refuses(p, w, a) && t < p.tables && s < p.entries
    ensures var i := Chosen(p, w, a, random);
      var slice := p.slice(w.now) - i;
      Noted(p, w, a, random)[t][s] ==
        if t == p.table(slice) && s == p.place(slice, a) then Entry(a, w.now + p.stay(i)) else w.tables[t][s]
  {
  }

  /** The entry written by a packet belongs where it is written. */
  lemma FreshBelongs(p: Layout, now: int, a: Address, i: nat)
    requires Sound(p) && !a.Unspec? && i < p.tables
    ensures var slice := p.slice(now) - i;
      Belongs(p, now, p.table(slice), p.place(slice, a), Entry(a, now + p.stay(i)))
  {
    var slice := p.slice(now) - i;
    assert Lasts(p, now, i);
    assert BelongsTo(p, now, p.table(slice), p.place(slice, a), Entry(a, now + p.stay(i)), slice);
  }

  /** A packet that is accepted: no other live entry is one of its address. */
  lemma NoOther(p: Layout, w: World, a: Address, t: nat, s: nat)
    requires Inv(p, w) && !Refuses(p, w, a) && LiveAt(p, w, t, s)
    ensures !AddressEqual(a, w.tables[t][s].address) && !AddressEqual(w.tables[t][s].address, a)
  {
    AddressEqualLaws(a, w.tables[t][s].address, a);
    if AddressEqual(a, w.tables[t][s].address) { LiveIsFound(p, w, t, s, a); }
  }

  lemma NotedBelongs(p: Layout, w: World, a: Address, random: nat, t: nat, s: nat)
    requires Inv(p, w) && random < p.tables && !a.Unspec? && !Refuses(p, w, a)
    requires LiveAt(p, w.(tables := Noted(p, w, a, random)), t, s)
    ensures Belongs(p, w.now, t, s, Noted(p, w, a, random)[t][s])
  {
    NotedWrites(p, w, a, random, t, s);
    FreshBelongs(p, w.now, a, Chosen(p, w, a, random));
    if Noted(p, w, a, random)[t][s] == w.tables[t][s] { assert LiveAt(p, w, t, s); }
  }

  lemma NotedApart(p: Layout, w: World, a: Address, random: nat, t: nat, s: nat, t': nat, s': nat)
    requires Inv(p, w) && random < p.tables && !a.Unspec? && !Refuses(p, w, a) && (t, s) != (t', s')
    requires var w' := w.(tables := Noted(p, w, a, random)); LiveAt(p, w', t, s) && LiveAt(p, w', t', s')
    ensures !AddressEqual(Noted(p, w, a, random)[t][s].address, Noted(p, w, a, random)[t'][s'].address)
  {
    var slice := p.slice(w.now) - Chosen(p, w, a, random);
    var t0, s0 := p.table(slice), p.place(slice, a);
    NotedWrites(p, w, a, random, t, s);
    NotedWrites(p, w, a, random, t', s');
    assert (t, s) != (t0, s0) ==> LiveAt(p, w, t, s);
    assert (t', s') != (t0, s0) ==> LiveAt(p, w, t', s');
    if (t, s) == (t0, s0) {
      NoOther(p, w, a, t', s');
    } else if (t', s') == (t0, s0) {
      NoOther(p, w, a, t, s);
    }
  }

  lemma NotedKeeps(p: Layout, w: World, a: Address, random: nat)
    requires Inv(p, w) && random < p.tables && !a.Unspec?
    ensures Inv(p, w.(tables := Noted(p, w, a, random)))
  {
    if !Refuses(p, w, a) {
      var w' := w.(tables := Noted(p, w, a, random));
      forall t, s | LiveAt(p, w', t, s) ensures Belongs(p, w'.now, t, s, w'.tables[t][s]) {
        NotedBelongs(p, w, a, random, t, s);
      }
      forall t, s, t', s' | LiveAt(p, w', t, s) && LiveAt(p, w', t', s') && (t, s) != (t', s')
        ensures !AddressEqual(w'.tables[t][s].address, w'.tables[t'][s'].address)
      {
        NotedApart(p, w, a, random, t, s, t', s');
      }
    }
  }

  /**
    An address that is accepted is refused from then on exactly if the slot it is written to lets it stay. The
    last slot of an address may not.
  */
  lemma AcceptedIsRemembered(p: Layout, w: World, a: Address, random: nat)
    requires Inv(p, w) && random < p.tables && !a.Unspec? && !Refuses(p, w, a)
    ensures Refuses(p, w.(tables := Noted(p, w, a, random)), a) <==> p.stay(Chosen(p, w, a, random)) > 0
  {
    var w' := w.(tables := Noted(p, w, a, random));
    var i := Chosen(p, w, a, random);
    var slice := p.slice(w.now) - i;
    NotedWrites(p, w, a, random, p.table(slice), p.place(slice, a));
    AddressEqualLaws(a, a, a);
    if p.stay(i) > 0 {
      assert Matches(p, w', a, i);
    } else {
      forall j | 0 <= j < p.tables ensures !Matches(p, w', a, j) {
        var other := p.slice(w.now) - j;
        NotedWrites(p, w, a, random, p.table(other), p.place(other, a));
        assert !Matches(p, w, a, j);
      }
    }
  }

  /** A live entry is replaced only when every slot of the other address is live. */
  lemma ReplacedOnlyWhenFull(p: Layout, w: World, a: Address, random: nat, t: nat, s: nat)
    requires Shaped(p, w.tables) && random < p.tables && LiveAt(p, w, t, s) &&
      Noted(p, w, a, random)[t][s] != w.tables[t][s]
    ensures forall i :: 0 <= i < p.tables ==> Live(SlotEntry(p, w, a, i), w.now)
  {
    NotedWrites(p, w, a, random, t, s);
  }

  /** After a purge the address is not refused, and nothing else changes. */
  lemma PurgeAllows(p: Layout, w: World, a: Address)
    requires Inv(p, w) && !a.Unspec?
    ensures var w' := w.(tables := Purged(p, w, a));
      && Inv(p, w') && !Refuses(p, w', a)
      && forall t, s :: LiveAt(p, w, t, s) && !AddressEqual(a, w.tables[t][s].address) ==>
        w'.tables[t][s] == w.tables[t][s]
  {
    var w' := w.(tables := Purged(p, w, a));
    forall t, s | LiveAt(p, w', t, s) ensures LiveAt(p, w, t, s) && w'.tables[t][s] == w.tables[t][s] {}
    forall i | 0 <= i < p.tables ensures !Matches(p, w', a, i) {
      PurgedOnce(p, w, a, i);
    }
  }

  /** The purged slot was the only one that remembered the address. */
  lemma PurgedOnce(p: Layout, w: World, a: Address, i: nat)
    requires Inv(p, w) && !a.Unspec? && i < p.tables
    ensures !Matches(p, w.(tables := Purged(p, w, a)), a, i)
  {
    var t, s := p.table(p.slice(w.now) - i), p.place(p.slice(w.now) - i, a);
    var j := FirstMatch(p, w, a, p.tables);
    var t', s' := p.table(p.slice(w.now) - j), p.place(p.slice(w.now) - j, a);
    AddressEqualLaws(w.tables[t][s].address, a, w.tables[t'][s'].address);
    AddressEqualLaws(a, w.tables[t][s].address, a);
    if j < p.tables && (t, s) != (t', s') {
      assert LiveAt(p, w, t', s');
      assert LiveAt(p, w, t, s) ==> !AddressEqual(w.tables[t][s].address, w.tables[t'][s'].address);
    }
  }

  // ------------------------------------------------------------------- runs

  datatype Step = Tick(millis: nat) | Packet(a: Address, random: nat) | Purge(a: Address)

  predicate StepOk(p: Layout, s: Step) {
    (s.Packet? ==> s.random < p.tables && !s.a.Unspec?) && (s.Purge? ==> !s.a.Unspec?)
  }

  ghost predicate StepsOk(p: Layout, steps: seq<Step>) {
    forall i :: 0 <= i < |steps| ==> StepOk(p, steps[i])
  }

  function Next(p: Layout, w: World, s: Step): (r: World)
    requires Shaped(p, w.tables) && StepOk(p, s)
    ensures Shaped(p, r.tables)
  {
    match s
    case Tick(millis) => w.(now := w.now + millis)
    case Packet(a, random) => w.(tables := Noted(p, w, a.WithPort(0), random))
    case Purge(a) => w.(tables := Purged(p, w, a.WithPort(0)))
  }

  ghost function At(p: Layout, w: World, steps: seq<Step>, n: nat): (r: World)
    requires Shaped(p, w.tables) && n <= |steps| && StepsOk(p, steps)
    ensures Shaped(p, r.tables)
  {
    if n == 0 then w else Next(p, At(p, w, steps, n - 1), steps[n - 1])
  }

  lemma StepKeeps(p: Layout, w: World, s: Step)
    requires Inv(p, w) && StepOk(p, s)
    ensures Inv(p, Next(p, w, s)) && Next(p, w, s).now >= w.now
  {
    match s
    case Tick(millis) => TimePasses(p, w, millis);
    case Packet(a, random) => NotedKeeps(p, w, a.WithPort(0), random);
    case Purge(a) => PurgeAllows(p, w, a.WithPort(0));
  }

  lemma {:induction false} RunKeeps(p: Layout, w: World, steps: seq<Step>, n: nat)
    requires Inv(p, w) && n <= |steps| && StepsOk(p, steps)
    ensures Inv(p, At(p, w, steps, n)) && At(p, w, steps, n).now >= w.now
  {
    if n > 0 {
      RunKeeps(p, w, steps, n - 1);
      StepKeeps(p, At(p, w, steps, n - 1), steps[n - 1]);
    }
  }

  /** The step neither purges the address nor overwrites the slot. */
  ghost predicate Spares(p: Layout, w: World, step: Step, t: nat, s: nat, a: Address)
    requires Shaped(p, w.tables) && StepOk(p, step) && t < p.tables && s < p.entries
  {
    && (step.Purge? ==> !AddressEqual(step.a.WithPort(0), a))
    && (step.Packet? ==> Next(p, w, step).tables[t][s] == w.tables[t][s])
  }

  ghost predicate SparesAt(p: Layout, w: World, steps: seq<Step>, n: nat, t: nat, s: nat, a: Address)
    requires Shaped(p, w.tables) && n < |steps| && StepsOk(p, steps) && t < p.tables && s < p.entries
  {
    Spares(p, At(p, w, steps, n), steps[n], t, s, a)
  }

  /** A spared entry stays in place until its timeout. */
  lemma StepSpares(p: Layout, w: World, step: Step, t: nat, s: nat)
    requires Inv(p, w) && StepOk(p, step) && LiveAt(p, w, t, s) && Spares(p, w, step, t, s, w.tables[t][s].address)
    ensures Next(p, w, step).tables[t][s] == w.tables[t][s]
  {
    if step.Purge? { PurgeAllows(p, w, step.a.WithPort(0)); }
  }

  lemma {:induction false} EntryStays(p: Layout, w: World, steps: seq<Step>, n: nat, t: nat, s: nat)
    requires Inv(p, w) && n <= |steps| && StepsOk(p, steps) && LiveAt(p, w, t, s)
    requires forall m :: 0 <= m < n ==> SparesAt(p, w, steps, m, t, s, w.tables[t][s].address)
    ensures At(p, w, steps, n).now < w.tables[t][s].timeout ==> At(p, w, steps, n).tables[t][s] == w.tables[t][s]
  {
    if n > 0 {
      var u := At(p, w, steps, n - 1);
      RunKeeps(p, w, steps, n - 1);
      StepKeeps(p, u, steps[n - 1]);
      EntryStays(p, w, steps, n - 1, t, s);
      assert SparesAt(p, w, steps, n - 1, t, s, w.tables[t][s].address);
      if u.now < w.tables[t][s].timeout {
        StepSpares(p, u, steps[n - 1], t, s);
      }
    }
  }

  /** A remembered address is refused at every later time before its timeout, unless it is purged or replaced. */
  lemma RefusedUntilTimeout(p: Layout, w: World, steps: seq<Step>, t: nat, s: nat, a: Address)
    requires Inv(p, w) && StepsOk(p, steps) && LiveAt(p, w, t, s)
    requires AddressEqual(a, w.tables[t][s].address)
    requires forall m :: 0 <= m < |steps| ==> SparesAt(p, w, steps, m, t, s, w.tables[t][s].address)
    requires At(p, w, steps, |steps|).now < w.tables[t][s].timeout
    ensures Refuses(p, At(p, w, steps, |steps|), a)
  {
    EntryStays(p, w, steps, |steps|, t, s);
    RunKeeps(p, w, steps, |steps|);
    LiveIsFound(p, At(p, w, steps, |steps|), t, s, a);
  }

  /**
    An accepted packet stops further ones from its address: after it, the address is refused in any run until the
    time its slot lets it stay is over, unless it is purged or its slot is overwritten.
  */
  lemma AcceptedIsRefused(p: Layout, w: World, a: Address, random: nat, steps: seq<Step>)
    requires Inv(p, w) && random < p.tables && !a.Unspec? && !Refuses(p, w, a) && StepsOk(p, steps)
    requires var i := Chosen(p, w, a, random);
      var slice := p.slice(w.now) - i;
      var w' := w.(tables := Noted(p, w, a, random));
      && (forall m :: 0 <= m < |steps| ==> SparesAt(p, w', steps, m, p.table(slice), p.place(slice, a), a))
      && At(p, w', steps, |steps|).now < w.now + p.stay(i)
    ensures Refuses(p, At(p, w.(tables := Noted(p, w, a, random)), steps, |steps|), a)
  {
    var w' := w.(tables := Noted(p, w, a, random));
    var slice := p.slice(w.now) - Chosen(p, w, a, random);
    NotedKeeps(p, w, a, random);
    NotedWrites(p, w, a, random, p.table(slice), p.place(slice, a));
    RunKeeps(p, w', steps, |steps|);
    AddressEqualLaws(a, a, a);
    RefusedUntilTimeout(p, w', steps, p.table(slice), p.place(slice, a), a);
  }

  /** The step does not accept a packet from the address. */
  ghost predicate Denies(p: Layout, w: World, step: Step, a: Address)
    requires Shaped(p, w.tables)
  {
    step.Packet? && AddressEqual(step.a.WithPort(0), a) ==> Refuses(p, w, step.a.WithPort(0))
  }

  ghost predicate DeniesAt(p: Layout, w: World, steps: seq<Step>, n: nat, a: Address)
    requires Shaped(p, w.tables) && n < |steps| && StepsOk(p, steps)
  {
    Denies(p, At(p, w, steps, n), steps[n], a)
  }

  /** Without an accepted packet, an entry of the address that is live after a step was there before it. */
  lemma WasThere(p: Layout, w: World, step: Step, a: Address, t: nat, s: nat)
    requires Shaped(p, w.tables) && StepOk(p, step) && Denies(p, w, step, a) && !a.Unspec?
    requires LiveAt(p, Next(p, w, step), t, s) && AddressEqual(Next(p, w, step).tables[t][s].address, a)
    ensures LiveAt(p, w, t, s) && w.tables[t][s] == Next(p, w, step).tables[t][s]
  {
    if step.Packet? && !Refuses(p, w, step.a.WithPort(0)) {
      NotedWrites(p, w, step.a.WithPort(0), step.random, t, s);
    }
  }

  lemma {:induction false} WasThereBefore(p: Layout, w: World, steps: seq<Step>, n: nat, a: Address, t: nat, s: nat)
    requires Shaped(p, w.tables) && StepsOk(p, steps) && n <= |steps| && !a.Unspec?
    requires forall m :: 0 <= m < n ==> DeniesAt(p, w, steps, m, a)
    requires LiveAt(p, At(p, w, steps, n), t, s) && AddressEqual(At(p, w, steps, n).tables[t][s].address, a)
    ensures LiveAt(p, w, t, s) && w.tables[t][s] == At(p, w, steps, n).tables[t][s]
  {
    if n > 0 {
      assert DeniesAt(p, w, steps, n - 1, a);
      WasThere(p, At(p, w, steps, n - 1), steps[n - 1], a, t, s);
      WasThereBefore(p, w, steps, n - 1, a, t, s);
    }
  }

  /** The slot holds a live entry of the address. */
  ghost predicate LiveOf(p: Layout, w: World, a: Address, t: nat, s: nat) {
    LiveAt(p, w, t, s) && AddressEqual(w.tables[t][s].address, a)
  }

  lemma NotRefused(p: Layout, w: World, a: Address)
    requires Shaped(p, w.tables) && forall t: nat, s: nat :: !LiveOf(p, w, a, t, s)
    ensures !Refuses(p, w, a)
  {
    forall i | 0 <= i < p.tables ensures !Matches(p, w, a, i) {
      var slice := p.slice(w.now) - i;
      AddressEqualLaws(a, SlotEntry(p, w, a, i).address, a);
      assert !LiveOf(p, w, a, p.table(slice), p.place(slice, a));
    }
  }

  lemma EntryIsOver(p: Layout, w: World, steps: seq<Step>, a: Address, t: nat, s: nat)
    requires Inv(p, w) && StepsOk(p, steps) && !a.Unspec?
    requires forall m :: 0 <= m < |steps| ==> DeniesAt(p, w, steps, m, a)
    requires At(p, w, steps, |steps|).now >= w.now + p.interval
    ensures !LiveOf(p, At(p, w, steps, |steps|), a, t, s)
  {
    if LiveAt(p, w, t, s) { assert Belongs(p, w.now, t, s, w.tables[t][s]); }
    if LiveOf(p, At(p, w, steps, |steps|), a, t, s) { WasThereBefore(p, w, steps, |steps|, a, t, s); }
  }

  /**
    Nobody is refused for longer than the interval: after any run that takes at least that long and in which no
    packet from the address is accepted, the address is not refused.
  */
  lemma RefusalIsShort(p: Layout, w: World, steps: seq<Step>, a: Address)
    requires Inv(p, w) && StepsOk(p, steps) && !a.Unspec?
    requires forall m :: 0 <= m < |steps| ==> DeniesAt(p, w, steps, m, a)
    requires At(p, w, steps, |steps|).now >= w.now + p.interval
    ensures !Refuses(p, At(p, w, steps, |steps|), a)
  {
    forall t: nat, s: nat ensures !LiveOf(p, At(p, w, steps, |steps|), a, t, s) {
      EntryIsOver(p, w, steps, a, t, s);
    }
    NotRefused(p, At(p, w, steps, |steps|), a);
  }

  // ------------------------------------------------- the arithmetic of the source

  /** How long a slice is. */
  function TableInterval(interval: int, tables: nat): (step: nat)
    requires tables >= 2 && interval >= tables - 1
    ensures step >= 1 && interval == (tables - 1) * step + interval % (tables - 1)
  {
    Quotient(interval, tables - 1);
    interval / (tables - 1)
  }

  lemma Quotient(n: int, d: nat)
    requires 1 <= d <= n
    ensures n / d >= 1 && n == d * (n / d) + n % d
  {
    if n / d <= 0 { Product(d, n / d, 0); }
  }

  lemma Product(d: nat, q: int, r: int)
    requires q <= r
    ensures d * q <= d * r
  {
  }

  /** The slices and tables of the source; a slice is taken as an unsigned 64-bit number. */
  function SourcePlan(interval: int, tables: nat, entries: nat, place: (int, Address) -> nat): Plan
    requires tables >= 2 && interval >= tables - 1
  {
    var step := TableInterval(interval, tables);
    Plan(interval, tables, entries, (now: int) => now / step, (slice: int) => slice % 0x1_0000_0000_0000_0000 % tables,
         (i: nat) => interval - i * step, place)
  }

  lemma SliceBound(now: int, step: nat, k: int)
    requires step >= 1
    ensures now < k * step <==> now / step < k
  {
    var q := now / step;
    assert now == step * q + now % step;
    if q < k { Product(step, q + 1, k); } else { Product(step, k, q); }
  }

  lemma SlicesOrdered(now: int, later: int, step: nat)
    requires step >= 1 && now <= later
    ensures now / step <= later / step
  {
    SliceBound(later, step, later / step + 1);
    SliceBound(now, step, later / step + 1);
  }

  /** An entry's end: with a remainder of at most one, its last moment is in a slice that still searches its table. */
  lemma SourceLasts(interval: int, tables: nat, now: int, i: nat)
    requires tables >= 2 && interval >= tables - 1 && interval % (tables - 1) <= 1 && i < tables
    ensures var step := TableInterval(interval, tables);
      (now + (interval - i * step) - 1) / step < now / step - i + tables && interval - i * step <= interval
  {
    var step := TableInterval(interval, tables);
    var q, k := now / step, now / step - i + tables;
    assert now == step * q + now % step;
    assert k * step == q * step - i * step + (tables - 1) * step + step;
    SliceBound(now + (interval - i * step) - 1, step, k);
    Product(step, 0, i);
  }

  /** With a larger remainder, an entry written at the end of a slice outlives the slice its table is searched for. */
  lemma SourceOutlasts(interval: int, tables: nat)
    requires tables >= 2 && interval >= tables - 1 && interval % (tables - 1) >= 2
    ensures var step := TableInterval(interval, tables);
      (step - 1) / step == 0 && (step - 1 + interval - 1) / step >= tables
  {
    var step := TableInterval(interval, tables);
    SliceBound(step - 1, step, 0);
    SliceBound(step - 1, step, 1);
    SliceBound(step - 1 + interval - 1, step, tables);
  }

  /** The plan of the source is sound if and only if the interval leaves a remainder of at most one. */
  lemma SourceIsSound(interval: int, tables: nat, entries: nat, place: (int, Address) -> nat)
    requires tables >= 2 && interval >= tables - 1
    requires Respects(SourcePlan(interval, tables, entries, place))
    ensures Sound(SourcePlan(interval, tables, entries, place)) <==> interval % (tables - 1) <= 1
  {
    var p, step := SourcePlan(interval, tables, entries, place), TableInterval(interval, tables);
    if interval % (tables - 1) <= 1 {
      forall now: int, later: int ensures Ordered(p, now, later) {
        if now <= later { SlicesOrdered(now, later, step); }
      }
      forall now: int, i: nat ensures Lasts(p, now, i) {
        if i < tables { SourceLasts(interval, tables, now, i); }
      }
    } else {
      SourceOutlasts(interval, tables);
      assert !Lasts(p, step - 1, 0);
    }
  }

  /** Among the slices that are searched each has a table of its own, once there are as many slices as tables. */
  lemma TablesDiffer(tables: nat, slice: int, other: int)
    requires tables >= 1 && 0 <= slice < other < slice + tables && other < 0x1_0000_0000_0000_0000
    ensures slice % 0x1_0000_0000_0000_0000 % tables != other % 0x1_0000_0000_0000_0000 % tables
  {
    RemaindersDiffer(tables, slice, other);
  }

  lemma RemaindersDiffer(d: nat, x: int, y: int)
    requires d >= 1 && x < y < x + d
    ensures x % d != y % d
  {
    var q, r := x / d, y / d;
    assert x == d * q + x % d && y == d * r + y % d;
    if r <= q { Product(d, r, q); } else { Product(d, q + 1, r); }
  }

  /** The eight bytes of a slice number as they are hashed, least significant first. */
  function SliceBytes(slice: int): seq<bv8> {
    var v := slice % 0x1_0000_0000_0000_0000;
    seq(8, i requires 0 <= i < 8 => SliceByte(v, i))
  }

  function SliceByte(v: int, i: nat): bv8
    decreases i
  {
    if i == 0 then (v % 256) as bv8 else SliceByte(v / 256, i - 1)
  }

  /** The slot of the source: the Jenkins hash of the slice and the address. */
  function JenkinsSlot(seed: bv32, entries: nat): (int, Address) -> nat
    requires entries >= 1
  {
    (slice: int, a: Address) =>
      if a.Unspec? then 0 else HashFinal(HashAddress(HashBytes(seed, SliceBytes(slice)), a)) as nat % entries
  }

  /** The hash of the source gives a layout whose slots respect address equality. */
  lemma JenkinsRespects(interval: int, tables: nat, entries: nat, seed: bv32)
    requires tables >= 2 && interval >= tables - 1 && entries >= 1
    ensures var p := SourcePlan(interval, tables, entries, JenkinsSlot(seed, entries)); Fits(p) && Respects(p)
  {
    var p := SourcePlan(interval, tables, entries, JenkinsSlot(seed, entries));
    forall slice: int, a: Address, b: Address | AddressEqual(a, b) && !a.Unspec?
      ensures p.place(slice, a) == p.place(slice, b)
    {
      EqualAddressesHashEqually(HashBytes(seed, SliceBytes(slice)), a, b);
    }
  }

  const MIN_HANDSHAKE_INTERVAL: int := 15000
  const UNKNOWN_TABLES: nat := 16
  const UNKNOWN_ENTRIES: nat := 64

  /** The numbers the source is built with meet the condition, so all of the above holds for them. */
  lemma SourceConstants(seed: bv32)
    ensures var p := SourcePlan(MIN_HANDSHAKE_INTERVAL, UNKNOWN_TABLES, UNKNOWN_ENTRIES,
      JenkinsSlot(seed, UNKNOWN_ENTRIES));
      Fits(p) && Sound(p)
  {
    JenkinsRespects(MIN_HANDSHAKE_INTERVAL, UNKNOWN_TABLES, UNKNOWN_ENTRIES, seed);
    SourceIsSound(MIN_HANDSHAKE_INTERVAL, UNKNOWN_TABLES, UNKNOWN_ENTRIES, JenkinsSlot(seed, UNKNOWN_ENTRIES));
  }

  /**
    An entry in the i-th slot stays exactly if i slices are shorter than the interval. If the tables divide the
    interval, as they do in the source, that leaves out the last slot: an address written there is accepted and
    not remembered.
  */
  lemma StaysUnlessLast(interval: int, tables: nat, entries: nat, place: (int, Address) -> nat, i: nat)
    requires tables >= 2 && interval >= tables - 1 && i < tables
    ensures SourcePlan(interval, tables, entries, place).stay(i) > 0 <==> i < tables - 1 || interval % (tables - 1) > 0
  {
    var step := TableInterval(interval, tables);
    if i < tables - 1 { Product(step, i + 1, tables - 1); }
  }

  // ------------------------------------------------------- the condition is exact

  /** Slots that tell the first slice from all others. */
  function FirstApart(): (int, Address) -> nat {
    (slice: int, a: Address) => if slice == 0 then 0 else 1
  }

  function Unused(p: Plan, now: int): Tables {
    seq(p.tables, _ => seq(p.entries, _ => Entry(Unspec, now)))
  }

  /** The start: everything is unused at the end of slice 0, so an address is written to its slot in table 0. */
  lemma WrittenFirst(p: Layout, now: int, a: Address)
    requires p.slice(now) == 0 && p.table(0) == 0 && p.place(0, a) == 0 && !a.Unspec?
    ensures var w := World(now, Unused(p, now));
      && !Refuses(p, w, a) && Noted(p, w, a, 0) == Write(p, w.tables, 0, 0, Entry(a, now + p.stay(0)))
  {
    var w := World(now, Unused(p, now));
    FirstEmptyIs(p, w, a, p.tables);
    assert forall i :: 0 <= i < p.tables ==> !Matches(p, w, a, i);
  }

  lemma {:induction false} FirstEmptyIs(p: Layout, w: World, a: Address, n: nat)
    requires Shaped(p, w.tables) && n >= 1 && !Live(SlotEntry(p, w, a, 0), w.now)
    ensures FirstEmpty(p, w, a, n) == 0
  {
    if n > 1 { FirstEmptyIs(p, w, a, n - 1); }
  }

  /** The end: no slice that is searched uses the slot. */
  lemma NotSearched(p: Layout, now: int, later: int, e: Entry, a: Address)
    requires now <= later && p.tables <= p.slice(later) && forall slice: int :: slice != 0 ==> p.place(slice, a) == 1
    ensures p.entries >= 2 ==> !Refuses(p, World(later, Write(p, Unused(p, now), 0, 0, e)), a)
  {
    var u := World(later, Write(p, Unused(p, now), 0, 0, e));
    forall i | 0 <= i < p.tables ensures p.entries >= 2 ==> !Matches(p, u, a, i) {
      assert p.place(p.slice(later) - i, a) == 1;
    }
  }

  lemma WholeSlices(step: nat, n: nat)
    requires step >= 1
    ensures (step - 1) / step == 0 && n * step / step == n
  {
    SliceBound(step - 1, step, 0);
    SliceBound(step - 1, step, 1);
    SliceBound(n * step, step, n);
    SliceBound(n * step, step, n + 1);
  }

  lemma StillLive(interval: int, tables: nat)
    requires tables >= 2 && interval >= tables - 1 && interval % (tables - 1) >= 2
    ensures var step := TableInterval(interval, tables); step - 1 <= tables * step < step - 1 + interval
  {
    Product(TableInterval(interval, tables), 1, tables);
  }

  /** An unused limiter accepts the address now, has a live entry of it later, and does not refuse it then. */
  ghost predicate Forgets(p: Layout, now: int, later: int, a: Address) {
    var w := World(now, Unused(p, now));
    && now <= later && !Refuses(p, w, a)
    && LiveOf(p, World(later, Noted(p, w, a, 0)), a, 0, 0) && !Refuses(p, World(later, Noted(p, w, a, 0)), a)
  }

  lemma ForgetsIfTooLong(p: Layout, now: int, later: int, a: Address)
    requires p.slice(now) == 0 && p.table(0) == 0 && p.place == FirstApart() && p.entries >= 2 && !a.Unspec?
    requires p.tables <= p.slice(later) && now <= later < now + p.stay(0)
    ensures Forgets(p, now, later, a)
  {
    AddressEqualLaws(a, a, a);
    WrittenFirst(p, now, a);
    NotSearched(p, now, later, Entry(a, now + p.stay(0)), a);
  }

  lemma FirstApartFits(interval: int, tables: nat, entries: nat)
    requires tables >= 2 && interval >= tables - 1 && entries >= 2
    ensures var p := SourcePlan(interval, tables, entries, FirstApart()); Fits(p) && Respects(p)
  {
  }

  lemma PlanIs(interval: int, tables: nat, entries: nat, now: int)
    requires tables >= 2 && interval >= tables - 1
    ensures var p := SourcePlan(interval, tables, entries, FirstApart());
      p.slice(now) == now / TableInterval(interval, tables) && p.stay(0) == interval && p.table(0) == 0
  {
  }

  /**
    With a remainder of two or more the limiter can forget: an address accepted at the end of slice 0 has a live
    entry when slice `tables` begins, but its table is searched for that slice now, and the address is not refused.
  */
  lemma RemainderForgets(interval: int, tables: nat, entries: nat, a: Address)
    requires tables >= 2 && interval >= tables - 1 && entries >= 2 && interval % (tables - 1) >= 2 && !a.Unspec?
    ensures var p, step := SourcePlan(interval, tables, entries, FirstApart()), TableInterval(interval, tables);
      Fits(p) && Respects(p) && Forgets(p, step - 1, tables * step, a)
  {
    var step := TableInterval(interval, tables);
    var now, later := step - 1, tables * step;
    FirstApartFits(interval, tables, entries);
    PlanIs(interval, tables, entries, now);
    PlanIs(interval, tables, entries, later);
    WholeSlices(step, tables);
    StillLive(interval, tables);
    ForgetsIfTooLong(SourcePlan(interval, tables, entries, FirstApart()), now, later, a);
  }

  // ------------------------------------------------------- the last slot

  /** All addresses share one slot in every table. */
  function OneSlot(): (int, Address) -> nat {
    (slice: int, a: Address) => 0
  }

  /** No two of the addresses are equal when their ports are left out. */
  ghost predicate Apart(addresses: seq<Address>) {
    && (forall i :: 0 <= i < |addresses| ==> !addresses[i].Unspec?)
    && forall i, j :: 0 <= i < j < |addresses| ==> !AddressEqual(addresses[i].WithPort(0), addresses[j].WithPort(0))
  }

  /** One address after the other, each in a slice of its own. */
  function Filling(addresses: seq<Address>, step: nat, k: nat): (r: seq<Step>)
    requires k <= |addresses|
    ensures |r| == 2 * k
  {
    if k == 0 then [] else Filling(addresses, step, k - 1) + [Tick(step), Packet(addresses[k - 1], 0)]
  }

  /** The clock at the start of each slice. */
  type Clock = nat -> int

  /** Slice k starts a step before the next one, and has its own table in the first lap around the tables. */
  ghost predicate SliceStarts(p: Plan, clock: Clock, step: nat, k: nat) {
    && clock(k) >= 0 && clock(k + 1) == clock(k) + step && p.slice(clock(k)) == k
    && (k < p.tables ==> p.table(k) == k)
  }

  /** An entry written in slice k is live throughout the lap. */
  ghost predicate Outlives(p: Plan, clock: Clock, k: nat, j: nat) {
    1 <= k && j < p.tables ==> clock(j) < clock(k) + p.interval
  }

  /** What the source's plan is in the first lap around the tables. */
  ghost predicate FirstLap(p: Plan, clock: Clock, step: nat) {
    && p.tables >= 2 && p.place == OneSlot() && p.stay(0) == p.interval && clock(0) == 0
    && (forall k: nat {:trigger SliceStarts(p, clock, step, k)} :: SliceStarts(p, clock, step, k))
    && (forall k: nat, j: nat {:trigger Outlives(p, clock, k, j)} :: Outlives(p, clock, k, j))
  }

  /** In slice k, the tables 1 to k hold the first k addresses, and nothing else is live. */
  ghost predicate Filled(p: Layout, w: World, addresses: seq<Address>, clock: Clock, k: nat)
    requires k <= |addresses|
  {
    && Shaped(p, w.tables) && w.now == clock(k)
    && (forall t :: 1 <= t <= k && t < p.tables ==>
      w.tables[t][0] == Entry(addresses[t - 1].WithPort(0), clock(t) + p.interval))
    && (forall t :: 0 <= t < p.tables && !(1 <= t <= k) ==> w.tables[t][0].timeout <= 0)
  }

  /** An address that is not among the first k is not refused. */
  lemma OtherNotRefused(p: Layout, w: World, addresses: seq<Address>, clock: Clock, k: nat, now: int, n: nat)
    requires k <= n < |addresses| && Apart(addresses) && Filled(p, w, addresses, clock, k) && p.place == OneSlot() &&
      now >= 0
    ensures !Refuses(p, w.(now := now), addresses[n].WithPort(0))
  {
    var u, a := w.(now := now), addresses[n].WithPort(0);
    forall i | 0 <= i < p.tables
      ensures !Matches(p, u, a, i)
    {
      var t := p.table(p.slice(now) - i);
      if 1 <= t <= k { AddressEqualLaws(a, addresses[t - 1].WithPort(0), a); }
    }
  }

  /** One more slice, and one more address in the table of that slice. */
  lemma OneMoreFilled(p: Layout, w: World, addresses: seq<Address>, clock: Clock, step: nat, k: nat)
    requires FirstLap(p, clock, step) && k + 1 < p.tables && k < |addresses| && Apart(addresses)
    requires Filled(p, w, addresses, clock, k)
    ensures Filled(p, Next(p, Next(p, w, Tick(step)), Packet(addresses[k], 0)), addresses, clock, k + 1)
  {
    assert SliceStarts(p, clock, step, k) && SliceStarts(p, clock, step, k + 1);
    var u, a := w.(now := clock(k + 1)), addresses[k].WithPort(0);
    OtherNotRefused(p, w, addresses, clock, k, u.now, k);
    assert p.slice(u.now) == k + 1 && p.table(k + 1) == k + 1;
    FirstEmptyIs(p, u, a, p.tables);
    assert Noted(p, u, a, 0) == Write(p, u.tables, k + 1, 0, Entry(a, u.now + p.interval));
  }

  lemma {:induction false} SameStart(p: Layout, w: World, steps: seq<Step>, more: seq<Step>, n: nat)
    requires Shaped(p, w.tables) && n <= |steps| && StepsOk(p, steps) && StepsOk(p, steps + more)
    ensures At(p, w, steps + more, n) == At(p, w, steps, n)
  {
    if n > 0 { SameStart(p, w, steps, more, n - 1); }
  }

  lemma {:induction false} FillingOk(p: Layout, addresses: seq<Address>, step: nat, k: nat)
    requires k <= |addresses| && Apart(addresses)
    ensures StepsOk(p, Filling(addresses, step, k))
  {
    if k > 0 { FillingOk(p, addresses, step, k - 1); }
  }

  /** An unused limiter, and what a run makes of it. */
  function Start(p: Layout): (w: World)
    ensures Shaped(p, w.tables)
  {
    World(0, Unused(p, 0))
  }

  ghost function Reached(p: Layout, steps: seq<Step>): (w: World)
    requires StepsOk(p, steps)
    ensures Shaped(p, w.tables)
  {
    At(p, Start(p), steps, |steps|)
  }

  lemma TwoMore(p: Layout, steps: seq<Step>, x: Step, y: Step)
    requires StepsOk(p, steps) && StepOk(p, x) && StepOk(p, y)
    ensures StepsOk(p, steps + [x, y]) && Reached(p, steps + [x, y]) == Next(p, Next(p, Reached(p, steps), x), y)
  {
    var longer := steps + [x, y];
    SameStart(p, Start(p), steps, [x, y], |steps|);
    assert At(p, Start(p), longer, |steps| + 1) == Next(p, At(p, Start(p), longer, |steps|), x);
  }

  lemma NothingFilled(p: Layout, addresses: seq<Address>, clock: Clock)
    requires clock(0) == 0
    ensures Filled(p, Start(p), addresses, clock, 0)
  {
  }

  lemma {:induction false} FillingFills(p: Layout, addresses: seq<Address>, clock: Clock, step: nat, k: nat)
    requires FirstLap(p, clock, step) && k < p.tables && k <= |addresses| && Apart(addresses)
    requires StepsOk(p, Filling(addresses, step, k))
    ensures Filled(p, Reached(p, Filling(addresses, step, k)), addresses, clock, k)
  {
    if k == 0 {
      NothingFilled(p, addresses, clock);
    } else {
      FillingOk(p, addresses, step, k - 1);
      FillingFills(p, addresses, clock, step, k - 1);
      var w := ReachedNext(p, addresses, step, k);
      OneMoreFilled(p, w, addresses, clock, step, k - 1);
    }
  }

  lemma ReachedNext(p: Layout, addresses: seq<Address>, step: nat, k: nat) returns (w: World)
    requires 0 < k <= |addresses| && StepsOk(p, Filling(addresses, step, k - 1)) &&
      StepOk(p, Packet(addresses[k - 1], 0))
    ensures StepsOk(p, Filling(addresses, step, k)) && w == Reached(p, Filling(addresses, step, k - 1))
    ensures Reached(p, Filling(addresses, step, k)) == Next(p, Next(p, w, Tick(step)), Packet(addresses[k - 1], 0))
  {
    w := Reached(p, Filling(addresses, step, k - 1));
    TwoMore(p, Filling(addresses, step, k - 1), Tick(step), Packet(addresses[k - 1], 0));
  }

  /** In the last slice of the lap, all slots of an address are live except the last. */
  lemma SlotIsLive(p: Layout, w: World, addresses: seq<Address>, clock: Clock, step: nat, b: Address, i: nat)
    requires FirstLap(p, clock, step) && i < p.tables && |addresses| == p.tables
    requires Filled(p, w, addresses, clock, p.tables - 1)
    ensures Live(SlotEntry(p, w, b, i), w.now) <==> i < p.tables - 1
  {
    var n := p.tables - 1;
    assert SliceStarts(p, clock, step, n) && SliceStarts(p, clock, step, n - i);
    assert SlotEntry(p, w, b, i) == w.tables[n - i][0];
    assert Outlives(p, clock, n - i, n);
  }

  lemma LastIsChosen(p: Layout, w: World, addresses: seq<Address>, clock: Clock, step: nat, b: Address, random: nat)
    requires FirstLap(p, clock, step) && |addresses| == p.tables && random < p.tables
    requires Filled(p, w, addresses, clock, p.tables - 1)
    ensures Chosen(p, w, b, random) == p.tables - 1
  {
    var r := FirstEmpty(p, w, b, p.tables);
    SlotIsLive(p, w, addresses, clock, step, b, p.tables - 1);
    if r < p.tables { SlotIsLive(p, w, addresses, clock, step, b, r); }
  }

  /** With all tables but one filled, the next address gets the last slot and is forgotten if that gives it no time. */
  lemma LastIsFree(p: Layout, w: World, addresses: seq<Address>, clock: Clock, step: nat, random: nat)
    requires FirstLap(p, clock, step) && |addresses| == p.tables && Apart(addresses) && random < p.tables
    requires Filled(p, w, addresses, clock, p.tables - 1) && p.stay(p.tables - 1) <= 0
    ensures var b := addresses[p.tables - 1].WithPort(0);
      !Refuses(p, w, b) && !Refuses(p, w.(tables := Noted(p, w, b, random)), b)
  {
    var n := p.tables - 1;
    var b := addresses[n].WithPort(0);
    assert SliceStarts(p, clock, step, n);
    OtherNotRefused(p, w, addresses, clock, n, w.now, n);
    LastIsChosen(p, w, addresses, clock, step, b, random);
    ForgottenAtOnce(p, w, b, random);
  }

  lemma ForgottenAtOnce(p: Layout, w: World, a: Address, random: nat)
    requires Shaped(p, w.tables) && random < p.tables && !Refuses(p, w, a) && p.stay(Chosen(p, w, a, random)) <= 0
    ensures !Refuses(p, w.(tables := Noted(p, w, a, random)), a)
  {
    var u := w.(tables := Noted(p, w, a, random));
    forall i | 0 <= i < p.tables
      ensures !Matches(p, u, a, i)
    {
      assert !Matches(p, w, a, i);
    }
  }

  lemma NextSlice(step: nat, k: nat)
    ensures k * step >= 0 && (k + 1) * step == k * step + step
  {
  }

  /** An entry of slice k or later lasts longer than the lap. */
  lemma LapIsShorter(interval: int, tables: nat, k: nat, j: nat)
    requires tables >= 2 && interval >= tables - 1 && 1 <= k && j < tables
    ensures var step := TableInterval(interval, tables); j * step < k * step + interval
  {
    var step := TableInterval(interval, tables);
    Product(step, 1, k);
    Product(step, j, tables - 1);
  }

  /** The start of each slice. */
  function Slices(step: nat): Clock {
    (k: nat) => k * step
  }

  lemma SourceSlice(interval: int, tables: nat, entries: nat, k: nat)
    requires 2 <= tables <= 0x1_0000_0000_0000_0000 && interval >= tables - 1
    ensures var step := TableInterval(interval, tables);
      SliceStarts(SourcePlan(interval, tables, entries, OneSlot()), Slices(step), step, k)
  {
    var p, step := SourcePlan(interval, tables, entries, OneSlot()), TableInterval(interval, tables);
    SliceTimes(step, k);
    if k < tables { OwnTable(tables, k); }
    assert p.slice(Slices(step)(k)) == Slices(step)(k) / step;
  }

  lemma SliceTimes(step: nat, k: nat)
    requires step >= 1
    ensures var clock := Slices(step); clock(k) >= 0 && clock(k + 1) == clock(k) + step && clock(k) / step == k
  {
    NextSlice(step, k);
    WholeSlices(step, k);
  }

  lemma OwnTable(tables: nat, k: nat)
    requires k < tables <= 0x1_0000_0000_0000_0000
    ensures k % 0x1_0000_0000_0000_0000 % tables == k
  {
    SmallRemainder(0x1_0000_0000_0000_0000, k);
    SmallRemainder(tables, k);
  }

  lemma SmallRemainder(d: nat, x: nat)
    requires x < d
    ensures x % d == x
  {
    var q := x / d;
    assert x == d * q + x % d;
    if q >= 1 { Product(d, 1, q); } else if q < 0 { Product(d, q, -1); }
  }

  lemma SourceOutlives(interval: int, tables: nat, entries: nat, k: nat, j: nat)
    requires tables >= 2 && interval >= tables - 1
    ensures
      Outlives(SourcePlan(interval, tables, entries, OneSlot()), Slices(TableInterval(interval, tables)), k, j)
  {
    if 1 <= k && j < tables { LapIsShorter(interval, tables, k, j); }
  }

  lemma OneSlotFits(interval: int, tables: nat, entries: nat)
    requires tables >= 2 && interval >= tables - 1 && entries >= 1
    ensures var p := SourcePlan(interval, tables, entries, OneSlot()); Fits(p) && Respects(p) && p.stay(0) == p.interval
  {
  }

  lemma SourceLap(interval: int, tables: nat, entries: nat)
    requires 2 <= tables <= 0x1_0000_0000_0000_0000 && interval >= tables - 1 && entries >= 1
    ensures
      var p, step := SourcePlan(interval, tables, entries, OneSlot()), TableInterval(interval, tables);
      FirstLap(p, Slices(step), step)
  {
    var p, step := SourcePlan(interval, tables, entries, OneSlot()), TableInterval(interval, tables);
    OneSlotFits(interval, tables, entries);
    forall k: nat
      ensures SliceStarts(p, Slices(step), step, k)
    {
      SourceSlice(interval, tables, entries, k);
    }
    forall k: nat, j: nat
      ensures Outlives(p, Slices(step), k, j)
    {
      SourceOutlives(interval, tables, entries, k, j);
    }
  }

  /** After the steps the address is let through, and again right afterwards. */
  ghost predicate LetThroughTwice(p: Layout, steps: seq<Step>, b: Address, random: nat) {
    && StepsOk(p, steps) && !b.Unspec? && random < p.tables
    && var w := Reached(p, steps);
       !Refuses(p, w, b.WithPort(0)) && !Refuses(p, Next(p, w, Packet(b, random)), b.WithPort(0))
  }

  /**
    The last slot is reached, from an unused limiter: if the tables divide the interval, as they do in the source, and
    all addresses share their slots, then one address in each of the slices 1 to tables - 1 fills all tables but one.
    The next address gets the last slot. It is let through, and again at the same moment.
  */
  lemma LastSlotForgets(interval: int, tables: nat, entries: nat, addresses: seq<Address>, random: nat)
    requires 2 <= tables <= 0x1_0000_0000_0000_0000 && interval >= tables - 1 && interval % (tables - 1) == 0
    requires entries >= 1 && |addresses| == tables && Apart(addresses) && random < tables
    ensures
      var p, step := SourcePlan(interval, tables, entries, OneSlot()), TableInterval(interval, tables);
      && Fits(p) && Respects(p)
      && LetThroughTwice(p, Filling(addresses, step, tables - 1), addresses[tables - 1], random)
  {
    var p: Plan, step := SourcePlan(interval, tables, entries, OneSlot()), TableInterval(interval, tables);
    OneSlotFits(interval, tables, entries);
    SourceLap(interval, tables, entries);
    StaysUnlessLast(interval, tables, entries, OneSlot(), tables - 1);
    FilledForgets(p, addresses, Slices(step), step, random);
  }

  lemma FilledForgets(p: Layout, addresses: seq<Address>, clock: Clock, step: nat, random: nat)
    requires FirstLap(p, clock, step) && |addresses| == p.tables && Apart(addresses) && random < p.tables
    requires p.stay(p.tables - 1) <= 0
    ensures LetThroughTwice(p, Filling(addresses, step, p.tables - 1), addresses[p.tables - 1], random)
  {
    var steps := Filling(addresses, step, p.tables - 1);
    FillingOk(p, addresses, step, p.tables - 1);
    FillingFills(p, addresses, clock, step, p.tables - 1);
    LastIsFree(p, Reached(p, steps), addresses, clock, step, random);
  }

  function Bit(n: nat): bv8 {
    if n % 2 == 1 then 1 else 0
  }

  /** Sixteen addresses, as many as the source has tables. */
  function Sixteen(): seq<Address> {
    seq(16, i requires 0 <= i < 16 => Inet([Bit(i), Bit(i / 2), Bit(i / 4), Bit(i / 8)], 0))
  }

  lemma SixteenApart()
    ensures Apart(Sixteen())
  {
    forall i, j | 0 <= i < j < 16
      ensures !AddressEqual(Sixteen()[i].WithPort(0), Sixteen()[j].WithPort(0))
    {
      BitsApart(i, j);
      var x, y := Sixteen()[i].ip4, Sixteen()[j].ip4;
      assert x[0] != y[0] || x[1] != y[1] || x[2] != y[2] || x[3] != y[3];
    }
  }

  lemma BitsApart(i: nat, j: nat)
    requires i < j < 16
    ensures Bit(i) != Bit(j) || Bit(i / 2) != Bit(j / 2) || Bit(i / 4) != Bit(j / 4) || Bit(i / 8) != Bit(j / 8)
  {
  }

  /** So it is with the source's numbers. */
  lemma SourceForgets(random: nat)
    requires random < UNKNOWN_TABLES
    ensures
      var p := SourcePlan(MIN_HANDSHAKE_INTERVAL, UNKNOWN_TABLES, UNKNOWN_ENTRIES, OneSlot());
      && Fits(p) && Respects(p)
      && LetThroughTwice(p, Filling(Sixteen(), 1000, 15), Sixteen()[15], random)
  {
    SixteenApart();
    LastSlotForgets(MIN_HANDSHAKE_INTERVAL, UNKNOWN_TABLES, UNKNOWN_ENTRIES, Sixteen(), random);
  }
}
