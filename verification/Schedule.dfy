/**
 * Collection runs in the course of time: between them time passes, and demand, results and metadata come in
 * (src/punch_rpc.c).
 */
module Schedule {
  import opened Collection
  import opened PairTable
  import opened TaskRuns

  /** A collection run, or something else that happens to the punch-control manager. */
  datatype Event = Collect(peers: nat, view: (nat, nat) -> Visit) | Other(step: Step)

  predicate Outer(e: Event) {
    e.Other? ==> !e.step.Launch? && !e.step.Compact?
  }

  /** How long the events take. */
  function Millis(events: seq<Event>): nat {
    if events == [] then 0
    else
      var last := events[|events| - 1];
      Millis(events[..|events| - 1]) + if last.Other? && last.step.Tick? then last.step.millis else 0
  }

  /** The steps of event n are those from starts[n] to starts[n + 1]. */
  ghost predicate EventAt(events: seq<Event>, steps: seq<Step>, starts: seq<nat>, n: nat)
    requires n < |events| < |starts|
  {
    && starts[n] < starts[n + 1] <= |steps|
    && match events[n]
       case Other(step) => starts[n + 1] == starts[n] + 1 && steps[starts[n]] == step
       case Collect(_, _) => Collected(steps[starts[n]..starts[n + 1]])
  }

  ghost predicate Scheduled(events: seq<Event>, steps: seq<Step>, starts: seq<nat>) {
    && |starts| == |events| + 1 && starts[0] == 0 && starts[|events|] == |steps|
    && forall n :: 0 <= n < |events| ==> EventAt(events, steps, starts, n)
  }

  lemma ScheduleGrows(events: seq<Event>, n: nat, steps: seq<Step>, starts: seq<nat>, more: seq<Step>)
    requires n < |events| && Scheduled(events[..n], steps, starts) && more != []
    requires match events[n] case Other(step) => more == [step] case Collect(_, _) => Collected(more)
    ensures Scheduled(events[..n + 1], steps + more, starts + [|steps + more|])
  {
    var before, after, all, ends := events[..n], events[..n + 1], steps + more, starts + [|steps + more|];
    forall k | 0 <= k < |after|
      ensures EventAt(after, all, ends, k)
    {
      if k < n {
        assert EventAt(before, steps, starts, k);
        assert all[ends[k]..ends[k + 1]] == steps[starts[k]..starts[k + 1]];
      } else {
        assert all[ends[n]..ends[n + 1]] == more;
      }
    }
  }

  lemma {:induction false} MillisGrow(events: seq<Event>, n: nat)
    requires n <= |events|
    ensures Millis(events[..n]) <= Millis(events)
  {
    if n == |events| {
      assert events[..n] == events;
    } else {
      MillisGrow(events[..|events| - 1], n);
      assert events[..|events| - 1][..n] == events[..n];
    }
  }

  /** What happens to the punch-control manager between collection runs. */
  method Happen(tasks: TaskManager, s: Step)
    requires !s.Launch?
    modifies tasks
    ensures World(tasks.now, tasks.table) == Next(World(old(tasks.now), old(tasks.table)), s)
  {
    match s
    case Tick(millis) => tasks.now := tasks.now + millis;
    case Compact => tasks.Compact();
    case Demand(a, b) => tasks.DemandNoted(a, b);
    case Report(a, b, result, until) => tasks.ResultMarked(a, b, result, until);
    case Metadata(id) => tasks.MetadataReset(id);
  }

  /** One event; `more` are its steps. */
  method Perform(c: Collector, e: Event, ghost w0: World, ghost steps: seq<Step>) returns (ghost more: seq<Step>)
    requires Outer(e) && Traced(w0, steps, World(c.tasks.now, c.tasks.table))
    requires c.tasks.now + Millis([e]) + SUPPRESSION_TIME < NEVER
    modifies c, c.tasks
    ensures more != [] && match e case Other(step) => more == [step] case Collect(_, _) => Collected(more)
    ensures Traced(w0, steps + more, World(c.tasks.now, c.tasks.table)) && c.tasks.now == old(c.tasks.now) + Millis([e])
  {
    ghost var w := World(c.tasks.now, c.tasks.table);
    assert [e][..0] == [];
    match e
    case Other(step) =>
      Happen(c.tasks, step);
      more := [step];
      TracedStep(w0, steps, w, step);
    case Collect(peers, view) =>
      var _, q := c.Run(peers, view);
      more := q.steps;
      TracedJoin(w0, steps, w, more, |more|);
      assert more[..|more|] == more;
  }

  /** Any schedule of collection runs and other events is one legal run of the punch-control manager. */
  method Run(c: Collector, events: seq<Event>) returns (ghost steps: seq<Step>, ghost starts: seq<nat>)
    requires forall n :: 0 <= n < |events| ==> Outer(events[n])
    requires c.tasks.now + Millis(events) + SUPPRESSION_TIME < NEVER
    modifies c, c.tasks
    ensures Traced(World(old(c.tasks.now), old(c.tasks.table)), steps, World(c.tasks.now, c.tasks.table))
    ensures Scheduled(events, steps, starts)
  {
    ghost var w0 := World(c.tasks.now, c.tasks.table);
    steps, starts := [], [0];
    for n := 0 to |events|
      invariant Traced(w0, steps, World(c.tasks.now, c.tasks.table)) && c.tasks.now == w0.now + Millis(events[..n])
      invariant Scheduled(events[..n], steps, starts)
    {
      MillisNext(events, n);
      ghost var more := Perform(c, events[n], w0, steps);
      ScheduleGrows(events, n, steps, starts, more);
      steps, starts := steps + more, starts + [|steps + more|];
    }
    assert events[..|events|] == events;
  }

  lemma MillisNext(events: seq<Event>, n: nat)
    requires n < |events|
    ensures Millis(events[..n + 1]) == Millis(events[..n]) + Millis([events[n]]) <= Millis(events)
  {
    assert events[..n + 1][..n] == events[..n] && [events[n]][..0] == [];
    MillisGrow(events, n + 1);
  }

  // ------------------------------------------------------------- what a schedule promises

  predicate EvictedAt(w: World, steps: seq<Step>, k: Key, m: nat)
    requires m < |steps|
  {
    Evicted(At(w, steps, m), steps[m], k)
  }

  /** No time passes in a collection run. */
  lemma {:induction false} SameTime(w: World, steps: seq<Step>, i: nat, j: nat)
    requires i <= j <= |steps| && forall m :: i <= m < j ==> steps[m].Compact? || steps[m].Launch?
    ensures At(w, steps, j).now == At(w, steps, i).now
  {
    if i < j {
      SameTime(w, steps, i, j - 1);
      TakesNoTime(At(w, steps, j - 1), steps[j - 1]);
    }
  }

  lemma TakesNoTime(w: World, s: Step)
    requires s.Compact? || s.Launch?
    ensures Next(w, s).now == w.now
  {
  }

  /** The steps of a collection run. */
  lemma InRun(events: seq<Event>, steps: seq<Step>, starts: seq<nat>, n: nat, m: nat)
    requires Scheduled(events, steps, starts) && n < |events| && events[n].Collect? && starts[n] <= m < starts[n + 1]
    ensures m < |steps| && (steps[m].Compact? || steps[m].Launch?)
  {
    assert EventAt(events, steps, starts, n);
    assert steps[m] == steps[starts[n]..starts[n + 1]][m - starts[n]];
  }

  lemma {:induction false} StartsGrow(events: seq<Event>, steps: seq<Step>, starts: seq<nat>, a: nat, b: nat)
    requires Scheduled(events, steps, starts) && a <= b <= |events|
    ensures starts[a] <= starts[b] <= |steps|
    decreases |events| - a
  {
    if a < |events| {
      assert EventAt(events, steps, starts, a);
      StartsGrow(events, steps, starts, a + 1, if a < b then b else a + 1);
    }
  }

  /** The event that a step belongs to. */
  lemma {:induction false} EventOf(events: seq<Event>, steps: seq<Step>, starts: seq<nat>, b: nat, m: nat)
    returns (n: nat)
    requires Scheduled(events, steps, starts) && b <= |events| && m < starts[b]
    ensures n < b && starts[n] <= m < starts[n + 1] <= |steps|
  {
    assert EventAt(events, steps, starts, b - 1);
    if starts[b - 1] <= m { n := b - 1; } else { n := EventOf(events, steps, starts, b - 1, m); }
  }

  /** A collection run launches a pair only once, unless its entry is evicted in between. */
  lemma OncePerRun(w: World, events: seq<Event>, steps: seq<Step>, starts: seq<nat>, n: nat, i: nat, j: nat, k: Key)
    requires Ok(w.table) && LegalRun(w, steps) && Scheduled(events, steps, starts) && n < |events| && events[n].Collect?
    requires starts[n] <= i < j < starts[n + 1] <= |steps| && Launches(steps[i], k) && Launches(steps[j], k)
    ensures exists m :: i < m < j && EvictedAt(w, steps, k, m)
  {
    forall m | i <= m < j
      ensures steps[m].Compact? || steps[m].Launch?
    {
      InRun(events, steps, starts, n, m);
    }
    SameTime(w, steps, i, j);
    if forall m :: i < m < j ==> !EvictedAt(w, steps, k, m) {
      forall m | i < m < j
        ensures Undisturbed(w, steps, m, k)
      {
        assert !EvictedAt(w, steps, k, m);
      }
      LaunchSpacing(w, steps, i, j, k);
    }
  }

  /**
   * Two collection runs that launch the same pair are at least the punch timeout apart, unless in between new metadata,
   * a result other than the two normal answers, or an eviction cleared its window.
   */
  lemma RunsAreSpaced(w: World, events: seq<Event>, steps: seq<Step>, starts: seq<nat>, a: nat, b: nat, i: nat, j: nat,
      k: Key)
    requires Ok(w.table) && LegalRun(w, steps) && Scheduled(events, steps, starts) && a < b < |events|
    requires events[a].Collect? && events[b].Collect?
    requires starts[a] <= i < starts[a + 1] <= |steps| && starts[b] <= j < starts[b + 1] <= |steps|
    requires Launches(steps[i], k) && Launches(steps[j], k)
    requires forall n :: a < n < b && events[n].Other? ==> !Clears(events[n].step, k)
    requires forall m :: i < m < j ==> !EvictedAt(w, steps, k, m)
    ensures At(w, steps, starts[b]).now >= At(w, steps, starts[a]).now + 5000
  {
    StartsGrow(events, steps, starts, a + 1, b);
    forall m | i < m < j
      ensures Undisturbed(w, steps, m, k)
    {
      NotCleared(events, steps, starts, a, b, m, k);
      assert !EvictedAt(w, steps, k, m);
    }
    LaunchSpacing(w, steps, i, j, k);
    RunTime(w, events, steps, starts, a, i);
    RunTime(w, events, steps, starts, b, j);
  }

  lemma RunTime(w: World, events: seq<Event>, steps: seq<Step>, starts: seq<nat>, n: nat, i: nat)
    requires Scheduled(events, steps, starts) && n < |events| && events[n].Collect? &&
      starts[n] <= i < starts[n + 1] <= |steps|
    ensures At(w, steps, i).now == At(w, steps, starts[n]).now
  {
    forall m | starts[n] <= m < i
      ensures steps[m].Compact? || steps[m].Launch?
    {
      InRun(events, steps, starts, n, m);
    }
    SameTime(w, steps, starts[n], i);
  }

  lemma NotCleared(events: seq<Event>, steps: seq<Step>, starts: seq<nat>, a: nat, b: nat, m: nat, k: Key)
    requires Scheduled(events, steps, starts) && a < b < |events| && events[a].Collect? && events[b].Collect?
    requires starts[a] <= m < starts[b + 1] <= |steps|
    requires forall n :: a < n < b && events[n].Other? ==> !Clears(events[n].step, k)
    ensures !Clears(steps[m], k)
  {
    var n := EventOf(events, steps, starts, b + 1, m);
    if n < a { StartsGrow(events, steps, starts, n + 1, a); }
    assert EventAt(events, steps, starts, n);
    if events[n].Collect? { InRun(events, steps, starts, n, m); }
  }
}
