/**
  When demand for a pair is pending.

  The states of a run are a function `at` of the number of steps taken. What a step does to the demand for a pair is
  proved for any two states that follow each other; the runs are then reasoned about step by step.
*/
module Demand {
  import opened Basics
  import opened PairTable
  import opened TaskRuns

  // ------------------------------------------------------------ one entry

  /** What the source holds of a pair: its entry, or the one it would get. */
  function Known(w: World, k: Key): Runtime {
    if Has(w.table, k) then Entry(w.table, k) else Fresh(k, w.now)
  }

  lemma DemandEntry(w: World, a: nat, b: nat)
    requires Ok(w.table) && a != b
    ensures var k := PairKey(a, b);
      var t := Next(w, Demand(a, b)).table;
      Has(t, k) && Entry(t, k) == Demanded(Known(w, k), w.now)
  {
    var k := PairKey(a, b);
    TouchedOwn(w.table, w.now, k);
    NamedEffect(w.table, w.now, k, Demanded(Known(w, k), w.now), k);
  }

  lemma ReportEntry(w: World, a: nat, b: nat, result: Result, until: int)
    requires Ok(w.table)
    ensures var k := PairKey(a, b);
      var t := Next(w, Report(a, b, result, until)).table;
      Has(t, k) && Entry(t, k) == Reported(Known(w, k), w.now, result, until)
  {
    var k := PairKey(a, b);
    TouchedOwn(w.table, w.now, k);
    NamedEffect(w.table, w.now, k, Reported(Known(w, k), w.now, result, until), k);
  }

  lemma LaunchEntry(w: World, a: nat, b: nat, twice: bool)
    requires Ok(w.table)
    ensures var k := PairKey(a, b);
      var t := Next(w, Launch(a, b, twice)).table;
      Has(t, k) && Entry(t, k).demandSeq == Entry(t, k).servedSeq && Entry(t, k).demandUntil == Known(w, k).demandUntil
  {
    var k := PairKey(a, b);
    TouchedOwn(w.table, w.now, k);
    var r := Launched(Known(w, k), w.now);
    NamedEffect(w.table, w.now, k, r, k);
    if twice {
      NamedEffect(MarkLaunched(w.table, w.now, k), w.now, k, Launched(r, w.now), k);
    }
  }

  /** Only a step that names a pair makes an entry for it. */
  lemma NotCreated(w: World, s: Step, k: Key)
    requires Ok(w.table) && !s.Names(k) && Has(Next(w, s).table, k)
    ensures Has(w.table, k)
  {
    match s
    case Tick(_) =>
    case Compact => CompactedEntry(w.table, w.now, k);
    case Metadata(id) => ResetEntry(w.table, w.now, id, k);
    case Demand(a, b) =>
      if a != b { NoOther(w.table, w.now, PairKey(a, b), k); }
    case Report(a, b, _, _) => NoOther(w.table, w.now, PairKey(a, b), k);
    case Launch(a, b, twice) => LaunchCreatesNoOther(w, a, b, twice, k);
  }

  lemma LaunchCreatesNoOther(w: World, a: nat, b: nat, twice: bool, k: Key)
    requires Ok(w.table) && k != PairKey(a, b) && Has(Next(w, Launch(a, b, twice)).table, k)
    ensures Has(w.table, k)
  {
    var k0 := PairKey(a, b);
    NoOther(w.table, w.now, k0, k);
    if twice {
      LaunchEffect(w, a, b, false, k0);
      NoOther(MarkLaunched(w.table, w.now, k0), w.now, k0, k);
    }
  }

  lemma NoOther(t: Table, now: int, k0: Key, k: Key)
    requires Ok(t) && k0.lo <= k0.hi && k != k0
    ensures forall r: Runtime :: r.key == k0 && Has(Modify(Touched(t, now, k0), k0, r), k) ==> Has(t, k)
  {
    TouchedEntry(t, now, k0, k);
    forall r: Runtime | r.key == k0 && Has(Modify(Touched(t, now, k0), k0, r), k) ensures Has(t, k) {
      SameFind(Touched(t, now, k0), Modify(Touched(t, now, k0), k0, r), k);
    }
  }

  // ------------------------------------------------------------- one step

  /** A step from a state in order leads from `u` to `v`. */
  ghost predicate Moves(u: World, s: Step, v: World) {
    Ok(u.table) && u.now + SUPPRESSION_TIME < NEVER && v == Next(u, s)
  }

  /** The entry of `k` carries state in `u` and is gone in `v`. */
  ghost predicate Gone(u: World, v: World, k: Key) {
    Has(u.table, k) && RuntimeActive(Expire(Entry(u.table, k), u.now), u.now) && !Has(v.table, k)
  }

  /** The demand window is open at least until `until`. */
  predicate OpenUntil(w: World, k: Key, until: int) {
    Has(w.table, k) && var r := Entry(w.table, k); r.demandUntil != NEVER && r.demandUntil >= until && r.demandSeq >= 1
  }

  /** The pair's demand window is open. */
  predicate IsOpen(w: World, k: Key) {
    Has(w.table, k) && Active(Entry(w.table, k).demandUntil, w.now)
  }

  /** Demand is pending for the pair. */
  predicate IsPending(w: World, k: Key) {
    Has(w.table, k) && PendingDemand(Entry(w.table, k), w.now)
  }

  predicate Notes(s: Step, k: Key) {
    s.Demand? && s.Names(k)
  }

  lemma Later(u: World, s: Step, v: World)
    requires Moves(u, s, v)
    ensures u.now <= v.now
  {
  }

  lemma OpenStep(u: World, s: Step, v: World, k: Key, until: int)
    requires Moves(u, s, v) && OpenUntil(u, k, until) && u.now < until <= u.now + DEMAND_TIME && !Gone(u, v, k)
    ensures OpenUntil(v, k, until)
  {
    AfterOpen(u, s, k, until);
    StepEffect(u, s, k);
  }

  lemma AfterOpen(w: World, s: Step, k: Key, until: int)
    requires OpenUntil(w, k, until) && w.now < until <= w.now + DEMAND_TIME && w.now + SUPPRESSION_TIME < NEVER
    ensures var r := After(w, s, k); r.demandUntil != NEVER && r.demandUntil >= until && r.demandSeq >= 1
    ensures RuntimeActive(Expire(Entry(w.table, k), w.now), w.now)
  {
  }

  lemma OpenStarts(u: World, s: Step, v: World, k: Key)
    requires Moves(u, s, v) && Notes(s, k)
    ensures OpenUntil(v, k, u.now + 30000) && Unserved(v.table, k) == 1
    ensures Entry(v.table, k).demandUntil == u.now + DEMAND_TIME
  {
    DemandEntry(u, s.a, s.b);
    TouchedOwn(u.table, u.now, k);
  }

  lemma PendingStep(u: World, s: Step, v: World, k: Key)
    requires Moves(u, s, v) && OpenUntil(u, k, u.now + 1) && Has(v.table, k) && !Launches(s, k)
    requires Unserved(u.table, k) == 1 || Reason(s, k)
    ensures Unserved(v.table, k) == 1
  {
    assert Entry(u.table, k) in u.table;
    StepEffect(u, s, k);
  }

  /** Only a demand note opens a window or moves its end. */
  lemma WasOpen(u: World, s: Step, v: World, k: Key)
    requires Moves(u, s, v) && IsOpen(v, k) && !Notes(s, k)
    ensures IsOpen(u, k) && Entry(u.table, k).demandUntil == Entry(v.table, k).demandUntil
    ensures IsPending(v, k) ==> !Launches(s, k) && (Reason(s, k) || IsPending(u, k))
  {
    if s.Launch? && s.Names(k) {
      LaunchEntry(u, s.a, s.b, s.twice);
    } else if s.Report? && s.Names(k) {
      ReportEntry(u, s.a, s.b, s.result, s.until);
    } else {
      WasOpenUnnamed(u, s, v, k);
    }
  }

  lemma WasOpenUnnamed(u: World, s: Step, v: World, k: Key)
    requires Moves(u, s, v) && IsOpen(v, k) && !s.Names(k)
    ensures IsOpen(u, k) && Entry(u.table, k).demandUntil == Entry(v.table, k).demandUntil
    ensures IsPending(v, k) ==> Reason(s, k) || IsPending(u, k)
  {
    NotCreated(u, s, k);
    StepEffect(u, s, k);
    UnnamedKeepsDemand(u, s, k);
  }

  lemma UnnamedKeepsDemand(w: World, s: Step, k: Key)
    requires Has(w.table, k) && !s.Names(k)
    ensures var e, r := Entry(w.table, k), After(w, s, k);
      r.demandUntil == e.demandUntil && r.demandSeq == e.demandSeq && (Reason(s, k) || r.servedSeq == e.servedSeq)
  {
  }

  // ----------------------------------------------------------------- runs

  /** The states of a run. */
  type Trace = nat -> World

  ghost predicate MovesAt(at: Trace, steps: seq<Step>, n: nat) {
    n < |steps| ==> Moves(at(n), steps[n], at(n + 1))
  }

  ghost predicate Runs(at: Trace, steps: seq<Step>) {
    forall n: nat {:trigger MovesAt(at, steps, n)} :: MovesAt(at, steps, n)
  }

  /** The entry of `k` goes at none of the steps after step `i`, up to the end of `n` steps. */
  ghost predicate StaysSince(at: Trace, n: nat, k: Key, i: nat)
    requires i < n
  {
    n == i + 1 || (StaysSince(at, n - 1, k, i) && !Gone(at(n - 1), at(n), k))
  }

  /** Step `i` notes demand for `k`, less than 30 seconds before the end of `n` steps, and its entry stays since. */
  ghost predicate Wanted(at: Trace, steps: seq<Step>, n: nat, k: Key, i: nat) {
    i < n <= |steps| && Notes(steps[i], k) && at(n).now < at(i).now + 30000 && StaysSince(at, n, k, i)
  }

  /** A demand note or new metadata at step `j` is not followed by a launch of the pair. */
  ghost predicate Unanswered(steps: seq<Step>, n: nat, k: Key, j: nat)
    requires n <= |steps|
  {
    j < n && Reason(steps[j], k) && forall m :: j < m < n ==> !Launches(steps[m], k)
  }

  lemma StepLater(at: Trace, steps: seq<Step>, n: nat)
    requires Runs(at, steps) && n < |steps|
    ensures at(n).now <= at(n + 1).now
  {
    assert MovesAt(at, steps, n);
    Later(at(n), steps[n], at(n + 1));
  }

  lemma {:induction false} ClockGrows(at: Trace, steps: seq<Step>, i: nat, n: nat)
    requires Runs(at, steps) && i <= n <= |steps|
    ensures at(i).now <= at(n).now
  {
    if i < n {
      ClockGrows(at, steps, i, n - 1);
      StepLater(at, steps, n - 1);
    }
  }

  lemma FirstOpen(at: Trace, steps: seq<Step>, n: nat, k: Key)
    requires Runs(at, steps) && n < |steps| && Notes(steps[n], k)
    ensures OpenUntil(at(n + 1), k, at(n).now + 30000) && Unserved(at(n + 1).table, k) == 1
    ensures Entry(at(n + 1).table, k).demandUntil == at(n).now + DEMAND_TIME
  {
    assert MovesAt(at, steps, n);
    OpenStarts(at(n), steps[n], at(n + 1), k);
  }

  lemma NextOpen(at: Trace, steps: seq<Step>, n: nat, k: Key, until: int)
    requires Runs(at, steps) && n < |steps| && !Gone(at(n), at(n + 1), k)
    requires OpenUntil(at(n), k, until) && at(n).now < until <= at(n).now + 30000
    ensures OpenUntil(at(n + 1), k, until)
  {
    assert MovesAt(at, steps, n);
    OpenStep(at(n), steps[n], at(n + 1), k, until);
  }

  /** The window stays open for 30 seconds. */
  lemma {:induction false} StaysOpen(at: Trace, steps: seq<Step>, n: nat, k: Key, i: nat)
    requires Runs(at, steps) && Wanted(at, steps, n, k, i)
    ensures OpenUntil(at(n), k, at(i).now + 30000)
  {
    if i == n - 1 {
      FirstOpen(at, steps, i, k);
    } else {
      StepLater(at, steps, n - 1);
      ClockGrows(at, steps, i, n - 1);
      StaysOpen(at, steps, n - 1, k, i);
      NextOpen(at, steps, n - 1, k, at(i).now + 30000);
    }
  }

  lemma OpenHas(w: World, k: Key, until: int)
    requires OpenUntil(w, k, until) && w.now < until
    ensures Has(w.table, k) && OpenUntil(w, k, w.now + 1)
  {
  }

  lemma NextUnserved(at: Trace, steps: seq<Step>, n: nat, k: Key)
    requires Runs(at, steps) && n < |steps| && OpenUntil(at(n), k, at(n).now + 1) && Has(at(n + 1).table, k)
    requires !Launches(steps[n], k) && (Unserved(at(n).table, k) == 1 || Reason(steps[n], k))
    ensures Unserved(at(n + 1).table, k) == 1
  {
    assert MovesAt(at, steps, n);
    PendingStep(at(n), steps[n], at(n + 1), k);
  }

  /** And demand stays unserved until a launch, or is made so again by new metadata. */
  lemma {:induction false} StaysUnserved(at: Trace, steps: seq<Step>, n: nat, k: Key, i: nat, j: nat)
    requires Runs(at, steps) && Wanted(at, steps, n, k, i) && i <= j && Unanswered(steps, n, k, j)
    ensures Unserved(at(n).table, k) == 1
  {
    if i == n - 1 {
      FirstOpen(at, steps, i, k);
    } else {
      StepLater(at, steps, n - 1);
      StaysOpen(at, steps, n, k, i);
      OpenHas(at(n), k, at(i).now + 30000);
      StaysOpen(at, steps, n - 1, k, i);
      OpenHas(at(n - 1), k, at(i).now + 30000);
      if j < n - 1 { StaysUnserved(at, steps, n - 1, k, i, j); }
      NextUnserved(at, steps, n - 1, k);
    }
  }

  lemma OpenedBefore(at: Trace, steps: seq<Step>, n: nat, k: Key)
    requires Runs(at, steps) && n < |steps| && IsOpen(at(n + 1), k) && !Notes(steps[n], k)
    ensures IsOpen(at(n), k) && Entry(at(n).table, k).demandUntil == Entry(at(n + 1).table, k).demandUntil
    ensures IsPending(at(n + 1), k) ==> !Launches(steps[n], k) && (Reason(steps[n], k) || IsPending(at(n), k))
  {
    assert MovesAt(at, steps, n);
    WasOpen(at(n), steps[n], at(n + 1), k);
  }

  lemma OpenBound(w: World, k: Key, until: int)
    requires IsOpen(w, k) && Entry(w.table, k).demandUntil == until
    ensures w.now < until
  {
  }

  lemma UnansweredStep(steps: seq<Step>, n: nat, k: Key, i: nat, j: nat, pending: bool) returns (j': nat)
    requires i <= n < |steps| && i <= j
    requires pending ==> !Launches(steps[n], k) && (Reason(steps[n], k) || Unanswered(steps, n, k, j))
    ensures i <= j' && (pending ==> Unanswered(steps, n + 1, k, j'))
  {
    j' := if Reason(steps[n], k) then n else j;
  }

  /** An open window goes back to a demand note less than 30 seconds ago, and pending demand to what last renewed it. */
  lemma {:induction false} OpenedBy(at: Trace, steps: seq<Step>, n: nat, k: Key) returns (i: nat, j: nat)
    requires Runs(at, steps) && at(0).table == [] && n <= |steps| && IsOpen(at(n), k)
    ensures Wanted(at, steps, n, k, i) && i <= j
    ensures Entry(at(n).table, k).demandUntil == at(i).now + DEMAND_TIME
    ensures IsPending(at(n), k) ==> Unanswered(steps, n, k, j)
  {
    if Notes(steps[n - 1], k) {
      i, j := n - 1, n - 1;
      FirstOpen(at, steps, i, k);
    } else {
      OpenedBefore(at, steps, n - 1, k);
      i, j := OpenedBy(at, steps, n - 1, k);
      OpenBound(at(n), k, at(i).now + DEMAND_TIME);
      j := UnansweredStep(steps, n - 1, k, i, j, IsPending(at(n), k));
    }
  }

  /**
    Demand for a pair is pending exactly if it was noted less than 30 seconds ago, its entry has not been evicted
    since, and the note, or metadata of one of the peers that arrived after it, is not followed by a launch.
  */
  lemma PendingExactly(at: Trace, steps: seq<Step>, n: nat, k: Key)
    requires Runs(at, steps) && at(0).table == [] && n <= |steps|
    ensures IsPending(at(n), k) <==>
      exists i, j :: Wanted(at, steps, n, k, i) && i <= j && Unanswered(steps, n, k, j)
  {
    if IsPending(at(n), k) {
      var i, j := OpenedBy(at, steps, n, k);
    }
    forall i, j | Wanted(at, steps, n, k, i) && i <= j && Unanswered(steps, n, k, j)
      ensures IsPending(at(n), k)
    {
      StaysOpen(at, steps, n, k, i);
      StaysUnserved(at, steps, n, k, i, j);
    }
  }

  /** The states of a legal run of the manager are such a trace. */
  lemma LegalRuns(w: World, steps: seq<Step>)
    requires Ok(w.table) && LegalRun(w, steps)
    ensures Runs(StatesOf(w, steps), steps)
  {
    forall n: nat ensures MovesAt(StatesOf(w, steps), steps, n) {
      if n < |steps| {
        RunKeepsTable(w, steps, n);
        ClockInRange(w, steps, n);
      }
    }
  }

  function StatesOf(w: World, steps: seq<Step>): Trace {
    (n: nat) => if n <= |steps| then At(w, steps, n) else w
  }
}
