/**
  What every run of the punch-control task manager keeps.

  A run is a sequence of steps: time passes, the table is compacted, traffic
  demand is noted, a remote result arrives, a peer's metadata changes, or a
  collection run launches a pair. A launch is one step even if commands go out
  in both directions (`twice`), since the table is not touched in between.
*/
module TaskRuns {
  import opened Basics
  import opened PairTable

  datatype Step =
    | Tick(millis: nat)
    | Compact
    | Demand(a: nat, b: nat)
    | Report(a: nat, b: nat, result: Result, until: int)
    | Metadata(id: nat)
    | Launch(a: nat, b: nat, twice: bool)
  {
    /** The step reads or writes the entry of this pair by its key. */
    predicate Names(k: Key) {
      (Demand? || Report? || Launch?) && PairKey(a, b) == k && (Demand? ==> a != b)
    }
  }

  datatype World = World(now: int, table: Table)

  function Next(w: World, s: Step): World {
    match s
    case Tick(millis) => w.(now := w.now + millis)
    case Compact => w.(table := Compacted(w.table, w.now))
    case Demand(a, b) => if a == b then w else w.(table := NoteDemand(w.table, w.now, PairKey(a, b)))
    case Report(a, b, result, until) => w.(table := MarkResult(w.table, w.now, PairKey(a, b), result, until))
    case Metadata(id) => w.(table := ResetFor(w.table, w.now, id))
    case Launch(a, b, twice) =>
      var once := MarkLaunched(w.table, w.now, PairKey(a, b));
      w.(table := if twice then MarkLaunched(once, w.now, PairKey(a, b)) else once)
  }

  predicate PendingDemand(r: Runtime, now: int) {
    Active(r.demandUntil, now) && r.demandSeq != r.servedSeq
  }

  /** What the collection run has checked of the pair's entry when it launches the pair. */
  predicate MayLaunch(t: Table, now: int, k: Key) {
    Has(t, k) ==>
      var r := Entry(t, k);
      && !Active(r.inFlight, now) && !Active(r.backoff, now)
      && (PendingDemand(r, now) || (r.aborts == 0 && r.failures == 0 && r.successes == 0))
  }

  /** The 64-bit millisecond clock stays short of the value that stands for "never". */
  predicate Legal(w: World, s: Step) {
    && (s.Tick? ==> w.now + s.millis + SUPPRESSION_TIME < NEVER)
    && (s.Launch? ==> MayLaunch(w.table, w.now, PairKey(s.a, s.b)))
  }

  function At(w: World, steps: seq<Step>, n: nat): World
    requires n <= |steps|
  {
    if n == 0 then w else Next(At(w, steps, n - 1), steps[n - 1])
  }

  ghost predicate LegalRun(w: World, steps: seq<Step>) {
    && w.now + SUPPRESSION_TIME < NEVER
    && forall i :: 0 <= i < |steps| ==> LegalAt(w, steps, i)
  }

  ghost predicate LegalAt(w: World, steps: seq<Step>, i: nat)
    requires i < |steps|
  {
    Legal(At(w, steps, i), steps[i])
  }

  // ------------------------------------------------------- the table invariant

  ghost predicate Unique(t: Table) {
    forall i, j :: 0 <= i < j < |t| ==> t[i].key != t[j].key
  }

  predicate EntryOk(r: Runtime) {
    r.key.lo <= r.key.hi && r.servedSeq <= r.demandSeq < U64 && r.aborts <= U16_MAX
  }

  /** At most 1024 entries, one per ordered pair of ids, and no demand served that was not noted. */
  ghost predicate Ok(t: Table) {
    |t| <= STATE_LIMIT && Unique(t) && forall r :: r in t ==> EntryOk(r)
  }

  lemma {:induction false} Present(t: Table, r: Runtime)
    requires Unique(t) && r in t
    ensures Has(t, r.key) && Entry(t, r.key) == r
  {
    var i :| 0 <= i < |t| && t[i] == r;
    var j := Find(t, r.key);
    assert j <= i;
  }

  /** Compaction keeps exactly the entries that still matter, each with its window closed if it ran out. */
  lemma {:induction false} CompactedEntry(t: Table, now: int, k: Key)
    requires Unique(t)
    ensures Has(Compacted(t, now), k) <==> Has(t, k) && RuntimeActive(Expire(Entry(t, k), now), now)
    ensures Has(Compacted(t, now), k) ==> Entry(Compacted(t, now), k) == Expire(Entry(t, k), now)
  {
    if t != [] {
      var n := |t| - 1;
      var front, last, e := t[..n], t[n], Expire(t[n], now);
      CompactedEntry(front, now, k);
      NotBefore(t);
      assert t == front + [last];
      EntryAppend(front, last, k);
      var c := Compacted(front, now);
      if RuntimeActive(e, now) {
        assert Compacted(t, now) == c + [e];
        EntryAppend(c, e, k);
      } else {
        assert Compacted(t, now) == c;
      }
    }
  }

  lemma NotBefore(t: Table)
    requires Unique(t) && t != []
    ensures !Has(t[..|t| - 1], t[|t| - 1].key)
  {
  }

  lemma {:induction false} CompactedOk(t: Table, now: int)
    requires Unique(t) && forall r :: r in t ==> EntryOk(r)
    ensures Unique(Compacted(t, now)) && |Compacted(t, now)| <= |t|
    ensures forall r :: r in Compacted(t, now) ==> EntryOk(r)
  {
    if t != [] {
      var n := |t| - 1;
      var front, e := t[..n], Expire(t[n], now);
      CompactedOk(front, now);
      NotBefore(t);
      CompactedEntry(front, now, e.key);
      assert EntryOk(t[n]);
    }
  }

  lemma EntryAppend(t: Table, r: Runtime, k: Key)
    ensures Has(t + [r], k) <==> Has(t, k) || r.key == k
    ensures Has(t, k) ==> Entry(t + [r], k) == Entry(t, k)
    ensures !Has(t, k) && r.key == k ==> Entry(t + [r], k) == r
  {
    var i := Find(t + [r], k);
    assert forall j :: 0 <= j < |t| ==> (t + [r])[j] == t[j];
    assert (t + [r])[|t|] == r;
  }

  lemma WithoutOk(t: Table, v: nat)
    requires Unique(t) && v < |t|
    ensures Unique(Without(t, v)) && |Without(t, v)| == |t| - 1
    ensures forall r :: r in Without(t, v) ==> r in t
    ensures forall i :: 0 <= i < |t| && i != v ==> t[i] in Without(t, v)
  {
    var room := Without(t, v);
    assert forall i :: 0 <= i < |room| ==> room[i] == if i < v then t[i] else t[i + 1];
    forall i | 0 <= i < |t| && i != v
      ensures t[i] in room
    {
      assert room[if i < v then i else i - 1] == t[i];
    }
  }

  lemma RoomEntry(t: Table, now: int, k: Key)
    requires Unique(t)
    ensures Unique(Room(t, now)) && (|t| <= STATE_LIMIT ==> |Room(t, now)| < STATE_LIMIT)
    ensures forall r :: r in Room(t, now) ==> r in t
    ensures Has(Room(t, now), k) ==> Has(t, k) && Entry(Room(t, now), k) == Entry(t, k)
    ensures Has(t, k) && !Has(Room(t, now), k) ==>
      |t| >= STATE_LIMIT && forall i :: 0 <= i < |t| ==> !Below(t[i], Entry(t, k), now)
  {
    var room := Room(t, now);
    if |t| >= STATE_LIMIT {
      var v := Victim(t, now, |t|);
      WithoutOk(t, v);
      if Has(t, k) {
        var i := Find(t, k);
        if i != v { Present(room, t[i]); }
      }
      if Has(room, k) { Present(t, Entry(room, k)); }
    }
  }

  /** Looking up one pair: its own entry exists afterwards; another entry may expire, be dropped or be evicted. */
  lemma TouchedEntry(t: Table, now: int, k0: Key, k: Key)
    requires Ok(t) && k0.lo <= k0.hi
    ensures Ok(Touched(t, now, k0))
    ensures !Has(t, k0) ==> Entry(Touched(t, now, k0), k0) == Fresh(k0, now)
    ensures !Has(t, k0) && k != k0 && Has(Touched(t, now, k0), k) ==>
      Has(t, k) && Entry(Touched(t, now, k0), k) == Expire(Entry(t, k), now)
    ensures Has(t, k) && !Has(Touched(t, now, k0), k) ==> !Has(t, k0) && Lost(t, now, k)
  {
    if !Has(t, k0) {
      var c := Compacted(t, now);
      CompactedOk(t, now);
      CompactedEntry(t, now, k0);
      CompactedEntry(t, now, k);
      RoomEntry(c, now, k0);
      RoomEntry(c, now, k);
      var room := Room(c, now);
      EntryAppend(room, Fresh(k0, now), k0);
      EntryAppend(room, Fresh(k0, now), k);
      assert Unique(room + [Fresh(k0, now)]);
    }
  }

  /** An entry goes because nothing in it matters any more, or because a full table has none that matters less. */
  ghost predicate Lost(t: Table, now: int, k: Key)
    requires Has(t, k)
  {
    var e, c := Expire(Entry(t, k), now), Compacted(t, now);
    !RuntimeActive(e, now) || (|c| >= STATE_LIMIT && forall i :: 0 <= i < |c| ==> !Below(c[i], e, now))
  }

  lemma SameFind(t: Table, t': Table, k: Key)
    requires |t| == |t'| && forall j :: 0 <= j < |t| ==> t'[j].key == t[j].key
    ensures Find(t', k) == Find(t, k)
  {
    var b := Find(t, k);
    assert forall j :: 0 <= j < b ==> t'[j].key != k;
    assert b < |t| ==> t'[b].key == k;
  }

  lemma ModifyEntry(t: Table, k0: Key, r: Runtime, k: Key)
    requires Ok(t) && Has(t, k0) && r.key == k0 && EntryOk(r)
    ensures Ok(Modify(t, k0, r))
    ensures Has(Modify(t, k0, r), k) <==> Has(t, k)
    ensures Has(t, k) ==> Entry(Modify(t, k0, r), k) == if k == k0 then r else Entry(t, k)
  {
    var t', i := Modify(t, k0, r), Find(t, k0);
    assert forall j :: 0 <= j < |t| ==> t'[j].key == t[j].key;
    SameFind(t, t', k);
  }

  lemma ResetEntry(t: Table, now: int, id: nat, k: Key)
    requires Ok(t)
    ensures Ok(ResetFor(t, now, id))
    ensures Has(ResetFor(t, now, id), k) <==> Has(t, k)
    ensures Has(t, k) ==> Entry(ResetFor(t, now, id), k) == Refreshed(Entry(t, k), now, id)
  {
    var t' := ResetFor(t, now, id);
    assert forall j :: 0 <= j < |t| ==> t'[j].key == t[j].key;
    forall r | r in t' ensures EntryOk(r) {
      var j :| 0 <= j < |t'| && t'[j] == r;
      assert EntryOk(t[j]);
    }
    SameFind(t, t', k);
  }

  /** The step compacts the table: by itself, or because it names a pair without an entry. */
  predicate Compacts(w: World, s: Step) {
    s.Compact? || ((s.Demand? || s.Report? || s.Launch?) && s.Names(PairKey(s.a, s.b)) &&
      !Has(w.table, PairKey(s.a, s.b)))
  }

  /** What a step makes of the entry of `k`, if it keeps it. */
  function After(w: World, s: Step, k: Key): Runtime
    requires Has(w.table, k)
  {
    var e := Entry(w.table, k);
    if s.Names(k) then
      match s {
        case Demand(_, _) => Demanded(e, w.now)
        case Report(_, _, result, until) => Reported(e, w.now, result, until)
        case _ => if s.Launch? && s.twice then Launched(Launched(e, w.now), w.now) else Launched(e, w.now)
      }
    else if s.Metadata? then Refreshed(e, w.now, s.id)
    else if Compacts(w, s) then Expire(e, w.now)
    else e
  }

  /** The effect of an operation that looks up the pair `k0` and replaces its entry by `r`. */
  lemma NamedEffect(t: Table, now: int, k0: Key, r: Runtime, k: Key)
    requires Ok(t) && k0.lo <= k0.hi && r.key == k0 && EntryOk(r)
    ensures Ok(Modify(Touched(t, now, k0), k0, r))
    ensures Has(Modify(Touched(t, now, k0), k0, r), k0) && Entry(Modify(Touched(t, now, k0), k0, r), k0) == r
    ensures Has(t, k) && k != k0 && Has(Modify(Touched(t, now, k0), k0, r), k) ==>
      Entry(Modify(Touched(t, now, k0), k0, r), k) == if Has(t, k0) then Entry(t, k) else Expire(Entry(t, k), now)
    ensures Has(t, k) && !Has(Modify(Touched(t, now, k0), k0, r), k) ==> !Has(t, k0) && Lost(t, now, k)
  {
    TouchedEntry(t, now, k0, k);
    ModifyEntry(Touched(t, now, k0), k0, r, k0);
    ModifyEntry(Touched(t, now, k0), k0, r, k);
  }

  lemma TouchedOwn(t: Table, now: int, k: Key)
    requires Ok(t) && k.lo <= k.hi
    ensures var e := Entry(Touched(t, now, k), k);
      e.key == k && EntryOk(e) && e == if Has(t, k) then Entry(t, k) else Fresh(k, now)
  {
    TouchedEntry(t, now, k, k);
    assert Entry(Touched(t, now, k), k) in Touched(t, now, k);
  }

  /**
    Every step keeps the table invariant; an entry it keeps is as `After` says, and one it loses is lost to
    compaction or eviction.
  */
  lemma StepEffect(w: World, s: Step, k: Key)
    requires Ok(w.table)
    ensures Ok(Next(w, s).table)
    ensures Has(w.table, k) && Has(Next(w, s).table, k) ==> Entry(Next(w, s).table, k) == After(w, s, k)
    ensures Has(w.table, k) && !Has(Next(w, s).table, k) ==> Compacts(w, s) && !s.Names(k) && Lost(w.table, w.now, k)
    ensures !s.Tick? && s.Names(k) ==> Has(Next(w, s).table, k)
  {
    match s
    case Tick(_) =>
    case Compact =>
      CompactedOk(w.table, w.now);
      CompactedEntry(w.table, w.now, k);
    case Metadata(id) => ResetEntry(w.table, w.now, id, k);
    case Demand(a, b) =>
      if a != b {
        var k0 := PairKey(a, b);
        TouchedOwn(w.table, w.now, k0);
        NamedEffect(w.table, w.now, k0, Demanded(Entry(Touched(w.table, w.now, k0), k0), w.now), k);
      }
    case Report(a, b, result, until) =>
      var k0 := PairKey(a, b);
      TouchedOwn(w.table, w.now, k0);
      NamedEffect(w.table, w.now, k0, Reported(Entry(Touched(w.table, w.now, k0), k0), w.now, result, until), k);
    case Launch(a, b, twice) => LaunchEffect(w, a, b, twice, k);
  }

  lemma LaunchEffect(w: World, a: nat, b: nat, twice: bool, k: Key)
    requires Ok(w.table)
    ensures Ok(Next(w, Launch(a, b, twice)).table)
    ensures Has(w.table, k) && Has(Next(w, Launch(a, b, twice)).table, k) ==>
      Entry(Next(w, Launch(a, b, twice)).table, k) == After(w, Launch(a, b, twice), k)
    ensures Has(w.table, k) && !Has(Next(w, Launch(a, b, twice)).table, k) ==>
      k != PairKey(a, b) && !Has(w.table, PairKey(a, b)) && Lost(w.table, w.now, k)
    ensures Has(Next(w, Launch(a, b, twice)).table, PairKey(a, b))
    ensures Entry(Next(w, Launch(a, b, twice)).table, PairKey(a, b)).inFlight == w.now + PUNCH_TIMEOUT
  {
    var k0 := PairKey(a, b);
    TouchedOwn(w.table, w.now, k0);
    var r := Launched(Entry(Touched(w.table, w.now, k0), k0), w.now);
    NamedEffect(w.table, w.now, k0, r, k);
    var once := MarkLaunched(w.table, w.now, k0);
    if twice {
      NamedEffect(once, w.now, k0, Launched(r, w.now), k);
    }
  }

  // ------------------------------------------------------ theorems about runs

  /** In every run the table keeps its bound, its one entry per pair and its demand numbers. */
  lemma {:induction false} RunKeepsTable(w: World, steps: seq<Step>, n: nat)
    requires Ok(w.table) && n <= |steps|
    ensures Ok(At(w, steps, n).table)
  {
    if n > 0 {
      RunKeepsTable(w, steps, n - 1);
      StepEffect(At(w, steps, n - 1), steps[n - 1], Key(0, 0));
    }
  }

  /** The entry of `k` disappears although it carries scheduling state. */
  predicate Evicted(w: World, s: Step, k: Key) {
    Has(w.table, k) && RuntimeActive(Expire(Entry(w.table, k), w.now), w.now) && !Has(Next(w, s).table, k)
  }

  /** An entry that is in flight is evicted only if the table is full and every entry is in flight. */
  lemma EvictionSparesFlights(w: World, s: Step, k: Key)
    requires Ok(w.table) && Evicted(w, s, k) && Active(Entry(w.table, k).inFlight, w.now)
    ensures |w.table| == STATE_LIMIT
    ensures forall r :: r in w.table ==> Active(r.inFlight, w.now)
  {
    StepEffect(w, s, k);
    LostFlight(w.table, w.now, k);
  }

  lemma LostFlight(t: Table, now: int, k: Key)
    requires Ok(t) && Has(t, k) && Lost(t, now, k) && Active(Entry(t, k).inFlight, now)
    ensures |t| == STATE_LIMIT && forall r :: r in t ==> Active(r.inFlight, now)
  {
    CompactedFull(t, now);
    forall i | 0 <= i < |t| ensures Active(t[i].inFlight, now) {
      assert !Below(Compacted(t, now)[i], Entry(t, k), now);
    }
  }

  /** Compaction that drops nothing only closes windows. */
  lemma {:induction false} CompactedFull(t: Table, now: int)
    ensures |Compacted(t, now)| <= |t|
    ensures |Compacted(t, now)| == |t| ==> forall i :: 0 <= i < |t| ==> Compacted(t, now)[i] == Expire(t[i], now)
  {
    if t != [] { CompactedFull(t[..|t| - 1], now); }
  }

  /**
    `e` goes before `f`, or they are alike and `f` was not touched longer ago. A running punch matters most, then a
    back-off, then pending demand, then recent demand, then a record of results.
  */
  predicate GoesFirst(e: Runtime, f: Runtime, now: int) {
    if Active(e.inFlight, now) != Active(f.inFlight, now) then Active(f.inFlight, now)
    else if Active(e.inFlight, now) then e.updated <= f.updated
    else if Active(e.backoff, now) != Active(f.backoff, now) then Active(f.backoff, now)
    else if Active(e.backoff, now) then e.updated <= f.updated
    else if PendingDemand(e, now) != PendingDemand(f, now) then PendingDemand(f, now)
    else if PendingDemand(e, now) then e.updated <= f.updated
    else if Active(e.demandUntil, now) != Active(f.demandUntil, now) then Active(f.demandUntil, now)
    else e.updated <= f.updated
  }

  /** An entry that carries state is evicted only from a full table, and only if no other entry goes before it. */
  lemma EvictionOrder(w: World, s: Step, k: Key)
    requires Ok(w.table) && Evicted(w, s, k)
    ensures |w.table| == 1024
    ensures forall r :: r in w.table ==> GoesFirst(Expire(Entry(w.table, k), w.now), Expire(r, w.now), w.now)
  {
    StepEffect(w, s, k);
    CompactedFull(w.table, w.now);
    var e, c := Expire(Entry(w.table, k), w.now), Compacted(w.table, w.now);
    forall i | 0 <= i < |w.table| ensures GoesFirst(e, Expire(w.table[i], w.now), w.now) {
      StillMatters(w.table, w.now, i);
      assert !Below(c[i], e, w.now);
      ScoreOrders(e, c[i], w.now);
    }
  }

  lemma ScoreOrders(e: Runtime, f: Runtime, now: int)
    requires RuntimeActive(e, now) && RuntimeActive(f, now)
    ensures GoesFirst(e, f, now) <==> !Below(f, e, now)
  {
  }

  lemma {:induction false} StillMatters(t: Table, now: int, i: nat)
    requires |Compacted(t, now)| == |t| && i < |t|
    ensures RuntimeActive(Expire(t[i], now), now)
  {
    CompactedFull(t[..|t| - 1], now);
    if i < |t| - 1 { StillMatters(t[..|t| - 1], now, i); }
  }

  /**
    The step clears the outcome window of `k`: new metadata of one of its peers, or a remote result for it other
    than the two that keep the pair in flight.
  */
  predicate Clears(s: Step, k: Key) {
    || (s.Metadata? && Involves(k, s.id))
    || (s.Report? && s.Names(k) && !s.result.Accepted? && !s.result.Handshake?)
  }

  /** An open window stays as it is exactly unless the step clears it or evicts its entry. */
  lemma WindowKept(w: World, s: Step, k: Key)
    requires Ok(w.table) && Legal(w, s) && Has(w.table, k) && Active(Entry(w.table, k).inFlight, w.now)
    ensures Has(Next(w, s).table, k) && Entry(Next(w, s).table, k).inFlight == Entry(w.table, k).inFlight <==>
      !Clears(s, k) && !Evicted(w, s, k)
  {
    StepEffect(w, s, k);
  }

  predicate Launches(s: Step, k: Key) {
    s.Launch? && PairKey(s.a, s.b) == k
  }

  lemma {:induction false} ClockInRange(w: World, steps: seq<Step>, n: nat)
    requires LegalRun(w, steps) && n <= |steps|
    ensures At(w, steps, n).now + SUPPRESSION_TIME < NEVER
  {
    if n > 0 {
      ClockInRange(w, steps, n - 1);
      assert LegalAt(w, steps, n - 1);
      ClockStep(At(w, steps, n - 1), steps[n - 1]);
    }
  }

  lemma ClockStep(w: World, s: Step)
    requires Legal(w, s) && w.now + SUPPRESSION_TIME < NEVER
    ensures w.now <= Next(w, s).now && Next(w, s).now + SUPPRESSION_TIME < NEVER
  {
  }

  /** The window of `k` ends at `until` or that time has passed. */
  ghost predicate WindowUntil(w: World, k: Key, until: int) {
    w.now >= until || (Has(w.table, k) && Entry(w.table, k).inFlight == until != NEVER)
  }

  lemma WindowStep(w: World, s: Step, k: Key, until: int)
    requires Ok(w.table) && Legal(w, s) && WindowUntil(w, k, until) && !Clears(s, k) && !Evicted(w, s, k)
    ensures WindowUntil(Next(w, s), k, until)
  {
    if w.now < until { WindowKept(w, s, k); }
  }

  lemma WindowOpens(w: World, s: Step, k: Key)
    requires Ok(w.table) && Launches(s, k) && w.now + SUPPRESSION_TIME < NEVER
    ensures WindowUntil(Next(w, s), k, w.now + PUNCH_TIMEOUT)
  {
    LaunchEffect(w, s.a, s.b, s.twice, k);
  }

  /** Step `m` of the run neither clears the window of `k` nor evicts its entry. */
  ghost predicate Undisturbed(w: World, steps: seq<Step>, m: nat, k: Key)
    requires m < |steps|
  {
    !Clears(steps[m], k) && !Evicted(At(w, steps, m), steps[m], k)
  }

  /** The window opened by a launch at step `i` is still open after `n` steps, or its time has passed. */
  lemma {:induction false} WindowAfter(w: World, steps: seq<Step>, i: nat, n: nat, k: Key)
    requires Ok(w.table) && LegalRun(w, steps) && i < n <= |steps| && Launches(steps[i], k)
    requires forall m :: i < m < n ==> Undisturbed(w, steps, m, k)
    ensures WindowUntil(At(w, steps, n), k, At(w, steps, i).now + PUNCH_TIMEOUT)
  {
    RunKeepsTable(w, steps, n - 1);
    if i == n - 1 {
      ClockInRange(w, steps, i);
      WindowOpens(At(w, steps, i), steps[i], k);
    } else {
      WindowAfter(w, steps, i, n - 1, k);
      assert LegalAt(w, steps, n - 1) && Undisturbed(w, steps, n - 1, k);
      WindowStep(At(w, steps, n - 1), steps[n - 1], k, At(w, steps, i).now + PUNCH_TIMEOUT);
    }
  }

  /**
    Two launches of the same pair are at least the punch timeout apart, unless in between new metadata, a
    remote result other than the two normal answers, or an eviction cleared its window.
  */
  lemma LaunchSpacing(w: World, steps: seq<Step>, i: nat, j: nat, k: Key)
    requires Ok(w.table) && LegalRun(w, steps) && i < j < |steps| && Launches(steps[i], k) && Launches(steps[j], k)
    requires forall m :: i < m < j ==> Undisturbed(w, steps, m, k)
    ensures At(w, steps, j).now >= At(w, steps, i).now + 5000
  {
    WindowAfter(w, steps, i, j, k);
    assert LegalAt(w, steps, j);
  }

  // ------------------------------------------------------------- held back

  /** The pair is held back until `until`, or that time has passed. */
  ghost predicate HeldUntil(w: World, k: Key, until: int) {
    w.now >= until || (Has(w.table, k) && Entry(w.table, k).backoff == until != NEVER)
  }

  lemma HeldStep(w: World, s: Step, k: Key, until: int)
    requires Ok(w.table) && Legal(w, s) && HeldUntil(w, k, until) && !Clears(s, k) && !Evicted(w, s, k)
    ensures HeldUntil(Next(w, s), k, until)
  {
    if w.now < until {
      AfterHolds(w, s, k);
      StepEffect(w, s, k);
    }
  }

  lemma AfterHolds(w: World, s: Step, k: Key)
    requires Has(w.table, k) && Active(Entry(w.table, k).backoff, w.now) && !Clears(s, k)
    ensures After(w, s, k).backoff == Entry(w.table, k).backoff
    ensures RuntimeActive(Expire(Entry(w.table, k), w.now), w.now)
  {
  }

  /** A pair held back after step `i` is not launched before its time, unless it is cleared or evicted. */
  lemma {:induction false} HeldAfter(w: World, steps: seq<Step>, i: nat, n: nat, k: Key, until: int)
    requires Ok(w.table) && LegalRun(w, steps) && i < n <= |steps| && HeldUntil(At(w, steps, i + 1), k, until)
    requires forall m :: i < m < n ==> Undisturbed(w, steps, m, k)
    ensures HeldUntil(At(w, steps, n), k, until)
  {
    if i < n - 1 {
      HeldAfter(w, steps, i, n - 1, k, until);
      RunKeepsTable(w, steps, n - 1);
      assert LegalAt(w, steps, n - 1) && Undisturbed(w, steps, n - 1, k);
      HeldStep(At(w, steps, n - 1), steps[n - 1], k, until);
    }
  }

  /** A remote refusal. */
  predicate Refuses(s: Step, k: Key) {
    s.Report? && s.Names(k) && (s.result.Suppressed? || s.result.NoPeer?)
  }

  lemma RefusalHolds(w: World, s: Step, k: Key)
    requires Ok(w.table) && Refuses(s, k) && w.now + SUPPRESSION_TIME < NEVER
    ensures HeldUntil(Next(w, s), k, if s.until != NEVER then s.until else w.now + SUPPRESSION_TIME)
  {
    TouchedOwn(w.table, w.now, k);
    NamedEffect(w.table, w.now, k, Reported(Entry(Touched(w.table, w.now, k), k), w.now, s.result, s.until), k);
  }

  /**
    After a remote refusal the pair is not launched before the time the refusal gives, or for 60 seconds if it
    gives none, unless new metadata, a further remote result or an eviction comes between.
  */
  lemma RefusalSpacing(w: World, steps: seq<Step>, i: nat, j: nat, k: Key)
    requires Ok(w.table) && LegalRun(w, steps) && i < j < |steps| && Refuses(steps[i], k) && Launches(steps[j], k)
    requires forall m :: i < m < j ==> Undisturbed(w, steps, m, k)
    ensures At(w, steps, j).now >= if steps[i].until != NEVER then steps[i].until else At(w, steps, i).now + 60000
  {
    var u := At(w, steps, i);
    RunKeepsTable(w, steps, i);
    ClockInRange(w, steps, i);
    RefusalHolds(u, steps[i], k);
    HeldAfter(w, steps, i, j, k, if steps[i].until != NEVER then steps[i].until else u.now + SUPPRESSION_TIME);
    assert LegalAt(w, steps, j);
  }

  /** Step `s` finds that the outcome window of `k` ran out without a success. */
  predicate Aborts(w: World, s: Step, k: Key) {
    Has(w.table, k) && Compacts(w, s) && !s.Names(k) &&
    var e := Entry(w.table, k);
    e.inFlight <= w.now && e.inFlight != NEVER && e.successes == 0
  }

  /** After an abort the pair is not launched for 60 seconds, or until the end of the back-off it was in already. */
  lemma AbortSpacing(w: World, steps: seq<Step>, i: nat, j: nat, k: Key)
    requires Ok(w.table) && LegalRun(w, steps) && i < j < |steps| && Launches(steps[j], k)
    requires Aborts(At(w, steps, i), steps[i], k) && !Evicted(At(w, steps, i), steps[i], k)
    requires forall m :: i < m < j ==> Undisturbed(w, steps, m, k)
    ensures var u := At(w, steps, i);
      var b := Entry(u.table, k).backoff;
      At(w, steps, j).now >= if Active(b, u.now) then b else u.now + 60000
  {
    var u := At(w, steps, i);
    var b := Entry(u.table, k).backoff;
    RunKeepsTable(w, steps, i);
    ClockInRange(w, steps, i);
    StepEffect(u, steps[i], k);
    HeldAfter(w, steps, i, j, k, if Active(b, u.now) then b else u.now + SUPPRESSION_TIME);
    assert LegalAt(w, steps, j);
  }

  // ------------------------------------------------------ failure convergence

  /** The pair has an abort or a failure on record. */
  predicate Recorded(t: Table, k: Key) {
    Has(t, k) && (Entry(t, k).aborts > 0 || Entry(t, k).failures > 0)
  }

  /** The 16-bit abort counter wraps to zero while it is the only record. */
  predicate RecordWraps(w: World, s: Step, k: Key)
    requires Has(w.table, k)
  {
    var e := Entry(w.table, k);
    Compacts(w, s) && Expired(e, w.now) && e.successes == 0 && e.aborts == 0xffff && e.failures == 0
  }

  lemma AfterRecord(w: World, s: Step, k: Key)
    requires Recorded(w.table, k) && Entry(w.table, k).aborts <= U16_MAX
    ensures After(w, s, k).aborts > 0 || After(w, s, k).failures > 0 <==>
      !(s.Report? && s.Names(k) && s.result.Busy?) && !(RecordWraps(w, s, k) && !s.Names(k))
  {
  }

  /** A record is lost exactly by a busy result, an eviction or a wrapping counter. */
  lemma RecordKept(w: World, s: Step, k: Key)
    requires Ok(w.table) && Recorded(w.table, k)
    ensures Recorded(Next(w, s).table, k) <==>
      !(s.Report? && s.Names(k) && s.result.Busy?) && !Evicted(w, s, k) && !RecordWraps(w, s, k)
  {
    assert Entry(w.table, k) in w.table;
    AfterRecord(w, s, k);
    StepEffect(w, s, k);
  }

  /** A window that ran out without a success is on record afterwards, unless the counter wraps. */
  lemma AbortIsRecorded(w: World, s: Step, k: Key)
    requires Ok(w.table) && Aborts(w, s, k) && Has(Next(w, s).table, k)
    ensures Recorded(Next(w, s).table, k) <==> Entry(w.table, k).aborts < 0xffff || Entry(w.table, k).failures > 0
  {
    assert Entry(w.table, k) in w.table;
    AfterAbort(w, s, k);
    StepEffect(w, s, k);
  }

  lemma AfterAbort(w: World, s: Step, k: Key)
    requires Aborts(w, s, k) && Entry(w.table, k).aborts <= U16_MAX
    ensures After(w, s, k).aborts > 0 || After(w, s, k).failures > 0 <==>
      Entry(w.table, k).aborts < 0xffff || Entry(w.table, k).failures > 0
  {
  }

  /** So is a refusal. */
  lemma RefusalIsRecorded(w: World, s: Step, k: Key)
    requires Ok(w.table) && Refuses(s, k)
    ensures Recorded(Next(w, s).table, k)
  {
    TouchedOwn(w.table, w.now, k);
    NamedEffect(w.table, w.now, k, Reported(Entry(Touched(w.table, w.now, k), k), w.now, s.result, s.until), k);
  }

  /** Demand noted but not yet served by a launch. */
  function Unserved(t: Table, k: Key): nat {
    if Has(t, k) && Entry(t, k).demandSeq != Entry(t, k).servedSeq then 1 else 0
  }

  /** A step that gives a converged pair a reason to try again: demand, or new metadata of one of its peers. */
  predicate Reason(s: Step, k: Key) {
    (s.Demand? && s.Names(k)) || (s.Metadata? && Involves(k, s.id))
  }

  function One(b: bool): nat { if b then 1 else 0 }

  lemma StepConverges(w: World, s: Step, k: Key)
    requires Ok(w.table) && Legal(w, s) && Recorded(w.table, k) && Recorded(Next(w, s).table, k)
    ensures One(Launches(s, k)) + Unserved(Next(w, s).table, k) <= Unserved(w.table, k) + One(Reason(s, k))
  {
    StepEffect(w, s, k);
  }

  function CountLaunches(steps: seq<Step>, k: Key): nat {
    if steps == [] then 0
    else CountLaunches(steps[..|steps| - 1], k) + One(Launches(steps[|steps| - 1], k))
  }

  function CountReasons(steps: seq<Step>, k: Key): nat {
    if steps == [] then 0
    else CountReasons(steps[..|steps| - 1], k) + One(Reason(steps[|steps| - 1], k))
  }

  ghost predicate RecordedAt(w: World, steps: seq<Step>, n: nat, k: Key)
    requires n <= |steps|
  {
    Recorded(At(w, steps, n).table, k)
  }

  lemma {:induction false} AtPrefix(w: World, steps: seq<Step>, n: nat, m: nat)
    requires m <= n <= |steps|
    ensures At(w, steps[..n], m) == At(w, steps, m)
  {
    if m > 0 { AtPrefix(w, steps, n, m - 1); }
  }

  /**
    While an abort or failure stays on record, launches of the pair are bounded by the demand notes and
    metadata changes that concern it, plus one if demand was unserved at the start.
  */
  lemma {:induction false} BoundWhileRecorded(w: World, steps: seq<Step>, k: Key)
    requires Ok(w.table) && LegalRun(w, steps)
    requires forall n :: 0 <= n <= |steps| ==> RecordedAt(w, steps, n, k)
    ensures CountLaunches(steps, k) + Unserved(At(w, steps, |steps|).table, k)
      <= Unserved(w.table, k) + CountReasons(steps, k)
  {
    if steps != [] {
      var n := |steps| - 1;
      var front := steps[..n];
      forall m | 0 <= m <= n ensures RecordedAt(w, front, m, k) {
        AtPrefix(w, steps, n, m);
        assert RecordedAt(w, steps, m, k);
      }
      forall m | 0 <= m < n ensures LegalAt(w, front, m) {
        AtPrefix(w, steps, n, m);
        assert LegalAt(w, steps, m);
      }
      BoundWhileRecorded(w, front, k);
      AtPrefix(w, steps, n, n);
      RunKeepsTable(w, steps, n);
      assert LegalAt(w, steps, n) && RecordedAt(w, steps, n, k) && RecordedAt(w, steps, n + 1, k);
      StepConverges(At(w, steps, n), steps[n], k);
    }
  }

  /** Step `n` of the run leaves a record of the pair in place: no busy result, no eviction, no wrapping counter. */
  ghost predicate KeepsRecord(w: World, steps: seq<Step>, n: nat, k: Key)
    requires n < |steps|
  {
    var u, s := At(w, steps, n), steps[n];
    && !(s.Report? && s.Names(k) && s.result.Busy?) && !Evicted(u, s, k)
    && (Has(u.table, k) ==> !RecordWraps(u, s, k))
  }

  lemma {:induction false} RecordStays(w: World, steps: seq<Step>, n: nat, k: Key)
    requires Ok(w.table) && Recorded(w.table, k) && n <= |steps|
    requires forall m :: 0 <= m < n ==> KeepsRecord(w, steps, m, k)
    ensures RecordedAt(w, steps, n, k)
  {
    if n > 0 {
      RecordStays(w, steps, n - 1, k);
      RunKeepsTable(w, steps, n - 1);
      assert KeepsRecord(w, steps, n - 1, k);
      RecordKept(At(w, steps, n - 1), steps[n - 1], k);
    }
  }

  /**
    Once a pair has an abort or failure on record, and until a busy result, an eviction or a wrapping counter,
    its launches are bounded by the demand notes and metadata changes that concern it, plus one if demand was
    unserved at the start.
  */
  lemma FailedPairsConverge(w: World, steps: seq<Step>, k: Key)
    requires Ok(w.table) && LegalRun(w, steps) && Recorded(w.table, k)
    requires forall n :: 0 <= n < |steps| ==> KeepsRecord(w, steps, n, k)
    ensures CountLaunches(steps, k) <= CountReasons(steps, k) + Unserved(w.table, k)
  {
    forall n | 0 <= n <= |steps| ensures RecordedAt(w, steps, n, k) {
      RecordStays(w, steps, n, k);
    }
    BoundWhileRecorded(w, steps, k);
  }

  // ------------------------------------------------------------ what a result means

  /**
    Whether a pair may be launched right after a remote result, `r` being its entry before: the two normal answers
    never make it launchable, a refusal holds it back for the time given or the suppression time, and after a busy
    or an unknown result nothing holds it back but its record and the demand for it.
  */
  lemma ResultDecides(w: World, a: nat, b: nat, result: Result, until: int)
    requires w.now + SUPPRESSION_TIME < NEVER
    ensures var k := PairKey(a, b);
      var r := Entry(Touched(w.table, w.now, k), k);
      var demand, clean := PendingDemand(r, w.now), r.aborts == 0 && r.failures == 0 && r.successes == 0;
      MayLaunch(Next(w, Report(a, b, result, until)).table, w.now, k) <==>
        match result
        case Accepted | Handshake =>
          !Active(r.backoff, w.now) && !Active(r.inFlight, w.now) && until <= w.now && (demand || clean)
        case Busy => demand
        case Suppressed | NoPeer => until <= w.now && demand
        case Other => demand || clean
  {
    var k := PairKey(a, b);
    var t := Touched(w.table, w.now, k);
    var r := Reported(Entry(t, k), w.now, result, until);
    assert r.key == k;
    SameFind(t, Modify(t, k, r), k);
  }
}
