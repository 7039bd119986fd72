/**
  The punch-control task manager's table of peer pairs.

  Each pair of peers that relayed traffic or punching concerns has one runtime
  entry: an outcome window after a launch, a back-off, a demand window with
  sequence numbers, and result counters. The table is a bounded vector that is
  compacted and evicted from.

  The first half gives the effect of every operation on the vector as a
  function; the second half is the class with the source's loops, proved
  against these functions. `TaskRuns` builds on both.
*/
module PairTable {
  import opened Basics


  const NEVER: int := 0x7fff_ffff_ffff_ffff
  const PUNCH_TIMEOUT: int := 5000
  const SUPPRESSION_TIME: int := 60000
  const DEMAND_TIME: int := 30000
  const STATE_LIMIT: nat := 1024
  const U16_MAX: nat := 0xffff
  const U64: nat := 0x1_0000_0000_0000_0000

  /** The ids of a pair of peers, the lower one first. */
  datatype Key = Key(lo: nat, hi: nat)

  function PairKey(a: nat, b: nat): Key {
    if a <= b then Key(a, b) else Key(b, a)
  }

  datatype Runtime = Runtime(
    key: Key, updated: int, inFlight: int, backoff: int, demandUntil: int,
    demandSeq: nat, servedSeq: nat,
    launches: nat, aborts: nat, results: nat, successes: nat, failures: nat, busies: nat)

  type Table = seq<Runtime>

  datatype Result = Accepted | Handshake | Suppressed | NoPeer | Busy | Other

  // ----------------------------------------------------------- single entries

  /** A timeout that is set and still in the future. */
  predicate Active(timeout: int, now: int) {
    timeout != NEVER && timeout > now
  }

  predicate RuntimeActive(r: Runtime, now: int) {
    || Active(r.inFlight, now) || Active(r.backoff, now) || Active(r.demandUntil, now)
    || r.aborts > 0 || r.failures > 0 || r.successes > 0
  }

  /** How much an entry is worth keeping; an entry in flight scores highest. */
  function Score(r: Runtime, now: int): (s: nat)
    ensures s <= 5 && (s == 5 <==> Active(r.inFlight, now))
  {
    if Active(r.inFlight, now) then 5
    else if Active(r.backoff, now) then 4
    else if Active(r.demandUntil, now) then (if r.demandSeq != r.servedSeq then 3 else 2)
    else if r.aborts > 0 || r.failures > 0 || r.successes > 0 then 1
    else 0
  }

  predicate Expired(r: Runtime, now: int) {
    r.inFlight != NEVER && r.inFlight <= now
  }

  /** Closes an outcome window that has run out; without a success it counts as an abort and backs off. */
  function Expire(r: Runtime, now: int): Runtime {
    if !Expired(r, now) then r
    else if r.successes > 0 then r.(inFlight := NEVER, updated := now)
    else r.(inFlight := NEVER,
            backoff := if Active(r.backoff, now) then r.backoff else now + SUPPRESSION_TIME,
            aborts := (r.aborts + 1) % 0x1_0000, updated := now)
  }

  function Fresh(k: Key, now: int): Runtime {
    Runtime(k, now, NEVER, NEVER, NEVER, 0, 0, 0, 0, 0, 0, 0, 0)
  }

  function Demanded(r: Runtime, now: int): Runtime {
    var next := (r.demandSeq + 1) % U64;
    r.(demandUntil := now + DEMAND_TIME, updated := now,
       demandSeq := if next == 0 then 1 else next,
       servedSeq := if next == 0 then 0 else r.servedSeq)
  }

  function Saturate(n: nat): nat {
    if n < U16_MAX then n + 1 else n
  }

  function Launched(r: Runtime, now: int): Runtime {
    r.(inFlight := now + PUNCH_TIMEOUT, servedSeq := r.demandSeq, successes := 0, updated := now,
       launches := Saturate(r.launches))
  }

  function Reported(r: Runtime, now: int, result: Result, until: int): Runtime {
    var r := r.(updated := now, results := Saturate(r.results));
    match result
    case Accepted | Handshake =>
      if Active(r.backoff, now) || Active(r.inFlight, now) then r
      else r.(inFlight := if until != NEVER then until else now + PUNCH_TIMEOUT)
    case Busy =>
      r.(inFlight := NEVER, backoff := NEVER, successes := Saturate(r.successes), busies := Saturate(r.busies),
         aborts := 0, failures := 0)
    case Suppressed | NoPeer =>
      r.(inFlight := NEVER, successes := 0, failures := Saturate(r.failures),
         backoff := if until != NEVER then until else now + SUPPRESSION_TIME)
    case Other =>
      r.(inFlight := NEVER, backoff := NEVER)
  }

  predicate Involves(k: Key, id: nat) {
    k.lo == id || k.hi == id
  }

  /** New metadata of a peer closes its windows and makes recent demand pending again. */
  function Refreshed(r: Runtime, now: int, id: nat): Runtime {
    if !Involves(r.key, id) then r
    else r.(inFlight := NEVER, backoff := NEVER, updated := now,
            servedSeq := if Active(r.demandUntil, now) && r.demandSeq > 0 then r.demandSeq - 1 else r.servedSeq)
  }

  // ---------------------------------------------------------------- the table

  /** The position of the first entry of a pair, or the length of the table. */
  function Find(t: Table, k: Key): (i: nat)
    ensures i <= |t|
    ensures i < |t| ==> t[i].key == k
    ensures forall j :: 0 <= j < i ==> t[j].key != k
  {
    if t == [] then 0 else if t[0].key == k then 0 else 1 + Find(t[1..], k)
  }

  predicate Has(t: Table, k: Key) {
    Find(t, k) < |t|
  }

  function Compacted(t: Table, now: int): Table {
    if t == [] then []
    else
      var e := Expire(t[|t| - 1], now);
      Compacted(t[..|t| - 1], now) + (if RuntimeActive(e, now) then [e] else [])
  }

  /** Lower scores go first, and among equal scores the entry that was touched longest ago. */
  predicate Below(r: Runtime, s: Runtime, now: int) {
    Score(r, now) < Score(s, now) || (Score(r, now) == Score(s, now) && r.updated < s.updated)
  }

  /** The eviction victim among the first `n` entries. */
  function Victim(t: Table, now: int, n: nat): (v: nat)
    requires 1 <= n <= |t|
    ensures v < n && forall i :: 0 <= i < n ==> !Below(t[i], t[v], now)
    ensures forall i :: 0 <= i < n ==> Score(t[v], now) <= Score(t[i], now)
  {
    if n == 1 then 0
    else
      var v := Victim(t, now, n - 1);
      if Below(t[n - 1], t[v], now) then n - 1 else v
  }

  /** Makes room for one more entry. */
  function Room(t: Table, now: int): Table {
    if |t| >= STATE_LIMIT then Without(t, Victim(t, now, |t|)) else t
  }

  /** The table after the entry of `k` has been looked up, or created in a bounded way. */
  function Touched(t: Table, now: int, k: Key): (r: Table)
    ensures Has(r, k)
  {
    if Has(t, k) then t
    else
      var c := Compacted(t, now);
      if Has(c, k) then c
      else
        var r := Room(c, now) + [Fresh(k, now)];
        assert r[|r| - 1].key == k;
        r
  }

  function Modify(t: Table, k: Key, r: Runtime): Table
    requires Has(t, k)
  {
    t[Find(t, k) := r]
  }

  function Entry(t: Table, k: Key): Runtime
    requires Has(t, k)
  {
    t[Find(t, k)]
  }

  function NoteDemand(t: Table, now: int, k: Key): Table {
    var t' := Touched(t, now, k);
    Modify(t', k, Demanded(Entry(t', k), now))
  }

  function MarkLaunched(t: Table, now: int, k: Key): Table {
    var t' := Touched(t, now, k);
    Modify(t', k, Launched(Entry(t', k), now))
  }

  function MarkResult(t: Table, now: int, k: Key, result: Result, until: int): Table {
    var t' := Touched(t, now, k);
    Modify(t', k, Reported(Entry(t', k), now, result, until))
  }

  function ResetFor(t: Table, now: int, id: nat): (r: Table)
    ensures |r| == |t| && forall i :: 0 <= i < |t| ==> r[i] == Refreshed(t[i], now, id)
  {
    seq(|t|, i requires 0 <= i < |t| => Refreshed(t[i], now, id))
  }

  // --------------------------------------------------------------- the class

  class TaskManager {
    var now: int
    var table: Table

    method FindIndex(k: Key) returns (found: bool, index: nat)
      ensures found <==> Has(table, k)
      ensures found ==> index == Find(table, k)
    {
      for i := 0 to |table|
        invariant forall j :: 0 <= j < i ==> table[j].key != k
      {
        if table[i].key == k {
          return true, i;
        }
      }
      return false, 0;
    }

    /** Closes expired windows and deletes entries without scheduling state, while walking the vector. */
    method Compact()
      modifies this`table
      ensures table == Compacted(old(table), now)
    {
      var i := 0;
      ghost var j := 0;
      while i < |table|
        invariant 0 <= i <= |table| && 0 <= j <= |old(table)|
        invariant table[..i] == Compacted(old(table)[..j], now) && table[i..] == old(table)[j..]
        decreases |table| - i
      {
        var r := table[i];
        assert r == old(table)[j];
        assert old(table)[..j + 1][..j] == old(table)[..j];
        var expired := r.inFlight != NEVER && r.inFlight <= now;
        var aborted := expired && r.successes == 0;
        if expired && r.successes > 0 {
          r := r.(inFlight := NEVER, updated := now);
        }
        if aborted {
          r := r.(inFlight := NEVER);
          if !Active(r.backoff, now) {
            r := r.(backoff := now + SUPPRESSION_TIME);
          }
          r := r.(aborts := (r.aborts + 1) % 0x1_0000, updated := now);
        }
        assert r == Expire(old(table)[j], now);
        ghost var done := table[..i];
        table := table[i := r];
        j := j + 1;
        if RuntimeActive(r, now) {
          i := i + 1;
          assert table[..i] == done + [r];
        } else {
          table := table[..i] + table[i + 1..];
          assert table[..i] == done;
        }
      }
      assert old(table)[..j] == old(table);
      assert table[..i] == table;
    }

    method EvictionVictim() returns (victim: nat)
      requires |table| >= 1
      ensures victim == Victim(table, now, |table|)
    {
      victim := 0;
      var score := Score(table[0], now);
      for i := 1 to |table|
        invariant victim == Victim(table, now, i) && score == Score(table[victim], now)
      {
        var s := Score(table[i], now);
        if s < score || (s == score && table[i].updated < table[victim].updated) {
          victim, score := i, s;
        }
      }
    }

    /** Returns the entry of a pair, creating it if need be. */
    method GetRuntime(k: Key) returns (index: nat)
      modifies this`table
      ensures table == Touched(old(table), now, k) && index == Find(table, k)
    {
      var found;
      found, index := FindIndex(k);
      if found {
        return;
      }
      Compact();
      found, index := FindIndex(k);
      if found {
        return;
      }
      if |table| >= STATE_LIMIT {
        var v := EvictionVictim();
        table := table[..v] + table[v + 1..];
      }
      table := table + [Fresh(k, now)];
      index := |table| - 1;
      FreshIsLast(old(table), now, k);
    }

    method DemandNoted(a: nat, b: nat)
      modifies this`table
      ensures table == if a == b then old(table) else NoteDemand(old(table), now, PairKey(a, b))
    {
      if a == b {
        return;
      }
      var i := GetRuntime(PairKey(a, b));
      var r := table[i].(demandUntil := now + DEMAND_TIME, demandSeq := (table[i].demandSeq + 1) % U64);
      if r.demandSeq == 0 {
        r := r.(demandSeq := r.demandSeq + 1, servedSeq := 0);
      }
      table := table[i := r.(updated := now)];
    }

    method LaunchMarked(a: nat, b: nat)
      modifies this`table
      ensures table == MarkLaunched(old(table), now, PairKey(a, b))
    {
      var i := GetRuntime(PairKey(a, b));
      var r := table[i];
      r := r.(inFlight := now + PUNCH_TIMEOUT, servedSeq := r.demandSeq, successes := 0, updated := now);
      if r.launches < U16_MAX {
        r := r.(launches := r.launches + 1);
      }
      table := table[i := r];
    }

    method ResultMarked(sender: nat, subject: nat, result: Result, until: int)
      modifies this`table
      ensures table == MarkResult(old(table), now, PairKey(sender, subject), result, until)
    {
      var i := GetRuntime(PairKey(sender, subject));
      var r := NoteResult(table[i], result, until);
      table := table[i := r];
    }

    /** The entry of a pair after a result. */
    method NoteResult(before: Runtime, result: Result, until: int) returns (r: Runtime)
      ensures r == Reported(before, now, result, until)
    {
      r := before.(updated := now);
      if r.results < U16_MAX {
        r := r.(results := r.results + 1);
      }
      if result.Accepted? || result.Handshake? {
        if !Active(r.backoff, now) && !Active(r.inFlight, now) {
          r := r.(inFlight := if until != NEVER then until else now + PUNCH_TIMEOUT);
        }
      } else if result.Busy? {
        r := r.(inFlight := NEVER, backoff := NEVER);
        if r.successes < U16_MAX {
          r := r.(successes := r.successes + 1);
        }
        if r.busies < U16_MAX {
          r := r.(busies := r.busies + 1);
        }
        r := r.(aborts := 0, failures := 0);
      } else if result.Suppressed? || result.NoPeer? {
        r := r.(inFlight := NEVER, successes := 0);
        if r.failures < U16_MAX {
          r := r.(failures := r.failures + 1);
        }
        r := r.(backoff := if until != NEVER then until else now + SUPPRESSION_TIME);
      } else {
        r := r.(inFlight := NEVER, backoff := NEVER);
      }
    }

    method MetadataReset(id: nat)
      modifies this`table
      ensures table == ResetFor(old(table), now, id)
    {
      for i := 0 to |table|
        invariant |table| == |old(table)|
        invariant forall j :: 0 <= j < |table| ==>
          table[j] == if j < i then Refreshed(old(table)[j], now, id) else old(table)[j]
      {
        var r := table[i];
        if Involves(r.key, id) {
          r := r.(inFlight := NEVER, backoff := NEVER);
          if Active(r.demandUntil, now) && r.demandSeq > 0 {
            r := r.(servedSeq := r.demandSeq - 1);
          }
          table := table[i := r.(updated := now)];
        }
      }
    }
  }

  /** A new entry is the only one of its pair, so it is found at the end. */
  lemma FreshIsLast(t: Table, now: int, k: Key)
    ensures !Has(t, k) && !Has(Compacted(t, now), k) ==> Find(Touched(t, now, k), k) == |Touched(t, now, k)| - 1
  {
    var c := Compacted(t, now);
    var room := Room(c, now);
    if !Has(t, k) && !Has(c, k) {
      forall i | 0 <= i < |room| ensures room[i].key != k {
        assert room[i] in c;
      }
    }
  }
}
