/**
 * A round of PCP requests over whole runs (src/port_mapping.c): while entries come and go and both protocols walk
 * through the list, no port that keeps using PCP is passed over.
 */
module PcpRounds {
  import opened Basics
  import opened PortMapping

  ghost predicate PlacedAt(t: Table, i: nat, port: nat) {
    i < |t.entries| && t.entries[i].port == port && t.entries[i].uses.pcp && t.entries[i].HasUsers()
  }

  /** The port is on the list and uses PCP. */
  ghost predicate Wants(t: Table, port: nat) {
    exists i: nat :: PlacedAt(t, i, port)
  }

  /** A request for the port is pending. */
  predicate Asks(t: Table, port: nat) {
    t.pcp.At? && t.pcp.index < |t.entries| && t.entries[t.pcp.index].port == port
  }

  /** A request for an entry in front of the port is pending. */
  ghost predicate Waits(t: Table, port: nat) {
    t.pcp.At? && exists i: nat :: t.pcp.index < i && PlacedAt(t, i, port)
  }

  // ------------------------------------------------------------- what leaves the order as it is

  lemma KeptByDelete(t: Table, k: nat, port: nat)
    requires t.InRange() && k < |t.entries| && !t.Needed(k) && Waits(t, port)
    ensures Waits(Delete(t, k), port)
  {
    var i: nat :| t.pcp.index < i && PlacedAt(t, i, port);
    assert i != k && t.pcp.index != k;
    assert PlacedAt(Delete(t, k), if i < k then i else i - 1, port);
  }

  lemma {:induction false} KeptByCompaction(t: Table, k: nat, port: nat)
    requires t.InRange() && Waits(t, port)
    ensures Waits(Compacted(t, k), port)
    decreases |t.entries| - k
  {
    if k < |t.entries| {
      if t.Needed(k) {
        KeptByCompaction(t, k + 1, port);
      } else {
        KeptByDelete(t, k, port);
        DeleteLaws(t, k);
        KeptByCompaction(Delete(t, k), k, port);
      }
    }
  }

  /** NAT-PMP's requests do not disturb PCP's. */
  lemma KeptByNatpmp(t: Table, from: nat, sent: bool, port: nat)
    requires t.InRange() && Waits(t, port)
    ensures Waits(Requested(t, from, Natpmp, sent), port)
  {
    var c := RequestedIs(t, from, Natpmp, sent);
    KeptByCompaction(t, 0, port);
    var i: nat :| c.pcp.index < i && PlacedAt(c, i, port);
    assert PlacedAt(Requested(t, from, Natpmp, sent), i, port);
  }

  /** The entries stay in place, and those that use PCP go on using it. */
  ghost predicate SameOrder(t: Table, t': Table) {
    && t'.pcp == t.pcp && |t'.entries| >= |t.entries|
    && forall i: nat, port: nat :: PlacedAt(t, i, port) ==> PlacedAt(t', i, port)
  }

  lemma KeptInPlace(t: Table, t': Table, port: nat)
    requires SameOrder(t, t') && Waits(t, port)
    ensures Waits(t', port)
  {
    var i: nat :| t.pcp.index < i && PlacedAt(t, i, port);
    assert PlacedAt(t', i, port);
  }

  // ------------------------------------------------------------- PCP's own moves

  /** A request starts from the compacted list, which needs no further compaction. */
  lemma RequestedIs(t: Table, n: nat, b: Backend, sent: bool) returns (c: Table)
    requires t.InRange()
    ensures c == Compacted(t, 0) && c.InRange() && SamePlace(t.entries, t.pcp, c.entries, c.pcp)
    ensures Requested(t, n, b, sent) ==
      if n <= |c.entries| && NextUser(c.entries, n, b) < |c.entries| && sent
      then Moved(c, b, At(NextUser(c.entries, n, b)))
      else c
  {
    c := Compacted(t, 0);
    CompactedLaws(t, 0);
    NothingToCompact(c, 0);
  }

  /** From any place that is not behind the port, the search finds the port or an entry in front of it. */
  lemma SearchFinds(c: Table, n: nat, j: nat, port: nat)
    requires PlacedAt(c, j, port) && n <= j
    ensures var k := NextUser(c.entries, n, Pcp);
      var r := c.(pcp := At(k)); k < |c.entries| && (Waits(r, port) || Asks(r, port))
  {
    var k := NextUser(c.entries, n, Pcp);
    assert k <= j;
    assert PlacedAt(c.(pcp := At(k)), j, port);
  }

  /** The list when PCP no longer waits for the entry at c. */
  lemma NotWaited(t: Table, c: nat)
    requires t.InRange() && t.Tidy() && t.pcp == At(c)
    ensures Compacted(t.(pcp := Idle), 0).entries ==
      if t.entries[c].HasUsers() || t.natpmp == At(c) then t.entries else Without(t.entries, c)
  {
    CompactWaited(t, Pcp, c);
  }

  lemma PlaceBehind(t: Table, c: nat, r: Table, port: nat) returns (j: nat)
    requires t.pcp == At(c) && c < |t.entries| && Waits(t, port)
    requires r.entries == if t.entries[c].HasUsers() || t.natpmp == At(c) then t.entries else Without(t.entries, c)
    ensures PlacedAt(r, j, port) && c <= j && (t.entries[c].HasUsers() ==> c < j)
  {
    j :| c < j && PlacedAt(t, j, port);
    if !t.entries[c].HasUsers() && t.natpmp != At(c) {
      WithoutAt(t.entries, c, j);
      j := j - 1;
    }
  }

  /** PCP moves on from the entry at c: to the port, or to one in front of it, unless the request cannot be sent. */
  lemma MovesOn(t: Table, c: nat, n: nat, sent: bool, port: nat)
    requires t.InRange() && t.Tidy() && t.pcp == At(c) && Waits(t, port)
    requires n == c || (n == c + 1 && t.entries[c].HasUsers())
    ensures var r := Requested(t.(pcp := Idle), n, Pcp, sent);
      if sent then Waits(r, port) || Asks(r, port) else r.pcp.Idle?
  {
    var r := RequestedIs(t.(pcp := Idle), n, Pcp, sent);
    NotWaited(t, c);
    var j := PlaceBehind(t, c, r, port);
    SearchFinds(r, n, j, port);
  }

  /** The step ends the round: a request cannot be sent, or the retries are used up. */
  predicate GivesUp(s: State, step: Step)
    requires s.table.InRange()
  {
    match step
    case PcpResponse(port, fits, _, sent) => fits && !sent && Asks(s.table, port)
    case PcpTimeout(sent) =>
      s.table.pcp.At? && (!sent || (s.table.entries[s.table.pcp.index].uses.pcp && s.retries >= MAX_RETRIES))
    case _ => false
  }

  // ------------------------------------------------------------- one step

  lemma RegistrationKeeps(s: State, requested: Trio<bool>, sock: Socket, o: Outside, port: nat)
    requires Sound(s, requested) && Waits(s.table, port)
    ensures Waits(Next(s, requested, Register(sock, o)).table, port)
  {
    if Registers(sock, requested, s.record.sockets) {
      var t := Referenced(s.table, sock.port, requested);
      ReferenceKeeps(s, requested, sock.port);
      KeptInPlace(s.table, t, port);
      ReferencedKeepsPort(s.table, sock.port, requested);
      ActivationKeeps(t, s.ready, o, port);
    }
  }

  lemma ReferenceKeeps(s: State, requested: Trio<bool>, p: nat)
    requires Sound(s, requested)
    ensures SameOrder(s.table, Referenced(s.table, p, requested))
  {
    var t, t' := s.table, Referenced(s.table, p, requested);
    forall i: nat, port: nat | PlacedAt(t, i, port)
      ensures PlacedAt(t', i, port)
    {
      assert EntryOk(t.entries[i], requested, s.record.held, s.ready.upnp);
    }
  }

  lemma ActivationKeeps(t: Table, ready: Trio<bool>, o: Outside, port: nat)
    requires t.InRange() && Waits(t, port)
    ensures Waits(Activated(t, ready, o), port)
  {
    var t1 := Started(t, Natpmp, ready.natpmp || o.natpmpUp, o.natpmpSent);
    KeptByNatpmp(t, 0, o.natpmpSent, port);
    UpnpKeeps(t1, o.grants);
    KeptInPlace(t1, WithUpnp(t1, o.grants), port);
  }

  lemma UpnpKeeps(t: Table, grants: nat -> bool)
    ensures SameOrder(t, WithUpnp(t, grants))
  {
  }

  lemma MappedKeeps(t: Table, i: nat, mapped: Trio<bool>)
    requires i < |t.entries|
    ensures SameOrder(t, WithMapped(t, i, mapped))
  {
  }

  /** If the port still uses PCP afterwards, a release of any socket keeps it behind the cursor. */
  lemma ReleaseKeeps(s: State, requested: Trio<bool>, sock: Socket, port: nat)
    requires Sound(s, requested) && Waits(s.table, port) && Wants(Next(s, requested, Release(sock)).table, port)
    ensures Waits(Next(s, requested, Release(sock)).table, port)
  {
    var t := s.table;
    if sock in s.record.sockets {
      if sock.mappable {
        UnreferencedKeeps(t, sock.port, s.ready.upnp, port);
        t := Unreferenced(t, sock.port, s.ready.upnp);
      }
      KeptByCompaction(t, 0, port);
    }
  }

  lemma UnreferencedKeeps(t: Table, p: nat, upnpReady: bool, port: nat)
    requires t.InRange() && DistinctPorts(t.entries) && Waits(t, port) &&
      Wants(Compacted(Unreferenced(t, p, upnpReady), 0), port)
    ensures Unreferenced(t, p, upnpReady).InRange() && Waits(Unreferenced(t, p, upnpReady), port)
  {
    var u := Unreferenced(t, p, upnpReady);
    assert forall m :: 0 <= m < |t.entries| ==> u.entries[m].port == t.entries[m].port;
    var i: nat :| t.pcp.index < i && PlacedAt(t, i, port);
    WantedBefore(u, i, port);
  }

  /** A port that uses PCP after compaction did so before. */
  lemma WantedBefore(t: Table, i: nat, port: nat)
    requires t.InRange() && DistinctPorts(t.entries) && Wants(Compacted(t, 0), port) && i < |t.entries| &&
      t.entries[i].port == port
    ensures PlacedAt(t, i, port)
  {
    CompactedLaws(t, 0);
    var j: nat :| PlacedAt(Compacted(t, 0), j, port);
    assert Compacted(t, 0).entries[j] in t.entries;
    var k :| 0 <= k < |t.entries| && t.entries[k] == Compacted(t, 0).entries[j];
    assert k == i;
  }

  lemma ResponseMovesOn(s: State, requested: Trio<bool>, i: nat, outcome: Outcome, sent: bool, port: nat)
    requires Sound(s, requested) && Waits(s.table, port) && i < |s.table.entries|
    ensures var r := AfterResponse(s.table, i, outcome, sent);
      if s.table.pcp != At(i) then Waits(r, port) else if sent then Waits(r, port) || Asks(r, port) else r.pcp.Idle?
  {
    var t, t' := s.table, Responded(s.table, i, outcome);
    MappedKeeps(t, i, t'.entries[i].mapped);
    KeptInPlace(t, t', port);
    if t.pcp == At(i) {
      forall j | 0 <= j < |t'.entries|
        ensures t'.Needed(j)
      {
        assert t.Needed(j);
      }
      MovesOn(t', i, AfterOrAt(t.entries, i), sent, port);
    }
  }

  lemma NatpmpKeeps(t: Table, event: NatpmpEvent, sent: bool, port: nat)
    requires t.InRange() && Waits(t, port)
    ensures Waits(AfterNatpmp(t, event, sent), port)
  {
    if t.natpmp.Idle? {
      KeptByNatpmp(t, 0, sent, port);
    } else if event.Failure? {
      KeptInPlace(t, t.(natpmp := Idle), port);
      KeptByCompaction(t.(natpmp := Idle), 0, port);
    } else if event.Success? {
      var c := t.natpmp.index;
      KeptInPlace(t, Answered(t), port);
      KeptByNatpmp(Answered(t), c + 1, sent, port);
    }
  }

  lemma TimeoutMovesOn(s: State, requested: Trio<bool>, sent: bool, port: nat)
    requires Sound(s, requested) && Waits(s.table, port)
    ensures var r := TimedOut(s.table, s.retries, sent).0;
      if GivesUp(s, PcpTimeout(sent)) then r.pcp.Idle? else Waits(r, port) || Asks(r, port)
  {
    var t, c := s.table, s.table.pcp.index;
    if !t.entries[c].uses.pcp {
      MovesOn(t, c, c, sent, port);
    } else {
      CompactedLaws(t.(pcp := Idle), 0);
    }
  }

  /** A port that waits is asked for next, or still waits, exactly if the step does not end the round. */
  lemma StepServes(s: State, requested: Trio<bool>, step: Step, port: nat)
    requires Sound(s, requested) && Waits(s.table, port) && Wants(Next(s, requested, step).table, port)
    ensures var r := Next(s, requested, step).table; Waits(r, port) || Asks(r, port) <==> !GivesUp(s, step)
  {
    match step
    case Register(sock, o) => RegistrationKeeps(s, requested, sock, o, port);
    case Release(sock) => ReleaseKeeps(s, requested, sock, port);
    case PcpResponse(p, fits, outcome, sent) =>
      var i := IndexOf(s.table.entries, p);
      if fits && i < |s.table.entries| { ResponseMovesOn(s, requested, i, outcome, sent, port); }
    case PcpTimeout(sent) => TimeoutMovesOn(s, requested, sent, port);
    case NatpmpStep(event, sent) => NatpmpKeeps(s.table, event, sent, port);
    case UpnpFound(grants) => UpnpKeeps(s.table, grants); KeptInPlace(s.table, WithUpnp(s.table, grants), port);
  }

  // ------------------------------------------------------------- whole rounds

  /** A round starts in front of every port that uses PCP. */
  lemma RoundStarts(s: State, requested: Trio<bool>, step: Step, port: nat)
    requires Sound(s, requested) && s.table.pcp.Idle? && Next(s, requested, step).table.pcp.At?
    requires Wants(Next(s, requested, step).table, port)
    ensures var r := Next(s, requested, step).table; Waits(r, port) || Asks(r, port)
  {
    match step
    case Register(sock, o) =>
      var t := Referenced(s.table, sock.port, requested);
      StartedKeepsPort(t, s.ready.natpmp || o.natpmpUp, o.natpmpSent);
      StartsInFront(BeforePcp(t, s.ready, o), o.pcpSent, port);
    case Release(sock) => CompactedKeepsIdle(s, requested, sock);
    case PcpTimeout(sent) => StartsInFront(s.table, sent, port);
    case NatpmpStep(event, sent) => NatpmpKeepsIdle(s.table, event, sent);
    case _ =>
  }

  lemma StartsInFront(t: Table, sent: bool, port: nat)
    requires t.InRange() && t.pcp.Idle? && Requested(t, 0, Pcp, sent).pcp.At? && Wants(Requested(t, 0, Pcp, sent), port)
    ensures var r := Requested(t, 0, Pcp, sent); Waits(r, port) || Asks(r, port)
  {
    var r := Requested(t, 0, Pcp, sent);
    var c := RequestedIs(t, 0, Pcp, sent);
    var i: nat :| PlacedAt(r, i, port);
    assert PlacedAt(c, i, port);
    SearchFinds(c, 0, i, port);
  }

  /** A request that can be sent is for the port or for one in front of it, if the port uses PCP at all. */
  lemma IdleRequestFinds(t: Table, i: nat, port: nat)
    requires t.InRange() && t.pcp.Idle? && PlacedAt(t, i, port)
    ensures var r := Requested(t, 0, Pcp, true); Waits(r, port) || Asks(r, port)
  {
    var c := RequestedIs(t, 0, Pcp, true);
    CompactedLaws(t, 0);
    assert t.entries[i] in c.entries;
    var k :| 0 <= k < |c.entries| && c.entries[k] == t.entries[i];
    assert PlacedAt(c, k, port);
    SearchFinds(c, 0, k, port);
  }

  /** Without a request pending, the timer starts a round for every port that uses PCP, if requests can be sent. */
  lemma TimerStarts(s: State, requested: Trio<bool>, port: nat)
    requires Sound(s, requested) && s.table.pcp.Idle? && Wants(s.table, port)
    ensures var r := Next(s, requested, PcpTimeout(true)).table; Waits(r, port) || Asks(r, port)
    ensures Next(s, requested, PcpTimeout(false)).table.pcp.Idle?
  {
    var i: nat :| PlacedAt(s.table, i, port);
    IdleRequestFinds(s.table, i, port);
    var c := RequestedIs(s.table, 0, Pcp, false);
  }

  /** And it starts one only then: the request is for a port that uses PCP. */
  lemma TimerStartsOnly(s: State, requested: Trio<bool>, sent: bool)
    requires Sound(s, requested) && s.table.pcp.Idle? && Next(s, requested, PcpTimeout(sent)).table.pcp.At?
    ensures sent && exists port: nat :: Wants(s.table, port) && Asks(Next(s, requested, PcpTimeout(sent)).table, port)
  {
    var t, r := s.table, Requested(s.table, 0, Pcp, sent);
    var c := RequestedIs(t, 0, Pcp, sent);
    CompactedLaws(t, 0);
    var e := c.entries[r.pcp.index];
    assert e in t.entries;
    var i: nat :| i < |t.entries| && t.entries[i] == e;
    assert EntryOk(e, requested, s.record.held, s.ready.upnp);
    assert PlacedAt(t, i, e.port);
    assert Wants(t, e.port) && Asks(r, e.port);
  }

  lemma {:induction false} UsesAnyHas(s: seq<Entry>, i: nat)
    requires i < |s|
    ensures s[i].uses.natpmp ==> UsesAny(s).natpmp
    ensures s[i].uses.upnp ==> UsesAny(s).upnp
    ensures s[i].uses.pcp ==> UsesAny(s).pcp
  {
    if i < |s| - 1 { UsesAnyHas(s[..|s| - 1], i); }
  }

  /** A port that uses PCP does so when PCP is started. */
  lemma WantedBeforePcp(t: Table, ready: Trio<bool>, o: Outside, port: nat) returns (i: nat)
    requires t.InRange() && t.pcp.Idle? && Wants(t, port)
    ensures BeforePcp(t, ready, o).InRange() && BeforePcp(t, ready, o).pcp.Idle?
    ensures PlacedAt(BeforePcp(t, ready, o), i, port)
  {
    var t1 := Started(t, Natpmp, ready.natpmp || o.natpmpUp, o.natpmpSent);
    StartedKeepsPort(t, ready.natpmp || o.natpmpUp, o.natpmpSent);
    var j: nat :| PlacedAt(t, j, port);
    if Starts(t, Natpmp, ready.natpmp || o.natpmpUp) { RequestedLaws(t, 0, Natpmp, o.natpmpSent); }
    assert t.entries[j] in t1.entries;
    i :| 0 <= i < |t1.entries| && t1.entries[i] == t.entries[j];
    assert PlacedAt(t1, i, port);
    UpnpKeeps(t1, o.grants);
    assert PlacedAt(WithUpnp(t1, o.grants), i, port);
  }

  /** A registration that asks for PCP starts a round if PCP is set up, or can be, and requests can be sent. */
  lemma RegistrationStarts(s: State, requested: Trio<bool>, sock: Socket, o: Outside, port: nat)
    requires Sound(s, requested) && s.table.pcp.Idle? && Registers(sock, requested, s.record.sockets) && requested.pcp
    requires (s.ready.pcp || o.pcpUp) && o.pcpSent && (port == sock.port || Wants(s.table, port))
    ensures var r := Next(s, requested, Register(sock, o)).table; Waits(r, port) || Asks(r, port)
  {
    var t := Referenced(s.table, sock.port, requested);
    ReferencedKeepsPort(s.table, sock.port, requested);
    ReferencedWants(s, requested, sock.port, port);
    var i := WantedBeforePcp(t, s.ready, o, port);
    var t2 := BeforePcp(t, s.ready, o);
    UsesAnyHas(t2.entries, i);
    IdleRequestFinds(t2, i, port);
  }

  lemma ReferencedWants(s: State, requested: Trio<bool>, p: nat, port: nat)
    requires Sound(s, requested) && requested.pcp && (port == p || Wants(s.table, port))
    ensures Wants(Referenced(s.table, p, requested), port)
  {
    var t', i := Referenced(s.table, p, requested), IndexOf(s.table.entries, p);
    ReferenceKeeps(s, requested, p);
    if port == p {
      assert PlacedAt(t', i, p);
    } else {
      var j: nat :| PlacedAt(s.table, j, port);
      assert PlacedAt(t', j, port);
    }
  }

  lemma CompactedKeepsIdle(s: State, requested: Trio<bool>, sock: Socket)
    requires Sound(s, requested) && s.table.pcp.Idle?
    ensures Next(s, requested, Release(sock)).table.pcp.Idle?
  {
    CompactedLaws(s.table, 0);
    CompactedLaws(Unreferenced(s.table, sock.port, s.ready.upnp), 0);
  }

  lemma NatpmpKeepsIdle(t: Table, event: NatpmpEvent, sent: bool)
    requires t.InRange() && t.pcp.Idle?
    ensures AfterNatpmp(t, event, sent).pcp.Idle?
  {
    if t.natpmp.Idle? {
      RequestedLaws(t, 0, Natpmp, sent);
    } else {
      CompactedLaws(t.(natpmp := Idle), 0);
      RequestedLaws(Answered(t), t.natpmp.index + 1, Natpmp, sent);
    }
  }

  ghost predicate WantsAt(trace: seq<State>, port: nat, n: nat)
    requires n < |trace|
  {
    Wants(trace[n].table, port)
  }

  predicate AsksAt(trace: seq<State>, port: nat, n: nat)
    requires n < |trace|
  {
    Asks(trace[n].table, port)
  }

  /** Step n of the run ends the round. */
  predicate GivesUpAt(trace: seq<State>, steps: seq<Step>, n: nat)
    requires n < |steps| < |trace|
  {
    trace[n].table.InRange() && GivesUp(trace[n], steps[n])
  }

  /**
   * A port that waits in state a, and uses PCP up to state b, is still waiting there or was asked for in between,
   * unless a step in between ended the round.
   */
  ghost predicate ServedInTurn(trace: seq<State>, steps: seq<Step>, port: nat, a: nat, b: nat)
    requires a <= b <= |steps| < |trace|
  {
    (forall n :: a < n <= b ==> WantsAt(trace, port, n)) && (forall n :: a <= n < b ==> !GivesUpAt(trace, steps, n)) ==>
      Waits(trace[b].table, port) || exists n :: a < n <= b && AsksAt(trace, port, n)
  }

  lemma StepServesAt(trace: seq<State>, requested: Trio<bool>, steps: seq<Step>, port: nat, n: nat)
    requires Traced(trace, requested, steps) && n < |steps| && Waits(trace[n].table, port)
    requires WantsAt(trace, port, n + 1) && !GivesUpAt(trace, steps, n)
    ensures Waits(trace[n + 1].table, port) || AsksAt(trace, port, n + 1)
  {
    assert StepAt(trace, requested, steps, n);
    StepServes(trace[n], requested, steps[n], port);
  }

  lemma {:induction false} WaitingIsServed(trace: seq<State>, requested: Trio<bool>, steps: seq<Step>, port: nat,
      a: nat, b: nat)
    requires Traced(trace, requested, steps) && a <= b <= |steps| && Waits(trace[a].table, port)
    ensures ServedInTurn(trace, steps, port, a, b)
    decreases b - a
  {
    if a < b && (forall n :: a < n <= b ==> WantsAt(trace, port, n)) && !GivesUpAt(trace, steps, a) {
      assert WantsAt(trace, port, a + 1);
      StepServesAt(trace, requested, steps, port, a);
      if AsksAt(trace, port, a + 1) {
        assert ServedInTurn(trace, steps, port, a, b);
      } else {
        WaitingIsServed(trace, requested, steps, port, a + 1, b);
      }
    }
  }

  /**
   * No round passes a port over: if the step from state a starts a round, which is over in state b, then a port that
   * used PCP all the time was asked for, or a step ended the round because a request could not be sent or was not
   * answered.
   */
  lemma RoundAsks(trace: seq<State>, requested: Trio<bool>, steps: seq<Step>, port: nat, a: nat, b: nat)
    requires Traced(trace, requested, steps) && a < b <= |steps|
    requires trace[a].table.pcp.Idle? && trace[a + 1].table.pcp.At? && trace[b].table.pcp.Idle?
    requires forall n :: a < n <= b ==> WantsAt(trace, port, n)
    ensures (exists n :: a < n < b && AsksAt(trace, port, n)) || (exists n :: a < n < b && GivesUpAt(trace, steps, n))
  {
    assert StepAt(trace, requested, steps, a) && WantsAt(trace, port, a + 1);
    RoundStarts(trace[a], requested, steps[a], port);
    if (forall n :: a < n < b ==> !GivesUpAt(trace, steps, n)) && !AsksAt(trace, port, a + 1) {
      WaitingIsServed(trace, requested, steps, port, a + 1, b);
      assert !Waits(trace[b].table, port);
      var n :| a + 1 < n <= b && AsksAt(trace, port, n);
      assert n != b;
    }
  }

  /** Every run of the mapping serves the waiting ports in turn. */
  method RunRounds(m: Mapping, steps: seq<Step>) returns (ghost trace: seq<State>)
    requires m.Valid()
    modifies m
    ensures m.Valid() && Traced(trace, m.requested, steps) && trace[0] == old(m.Snapshot()) &&
      trace[|steps|] == m.Snapshot()
    ensures forall port: nat, a: nat, b: nat ::
      a <= b <= |steps| && Waits(trace[a].table, port) ==> ServedInTurn(trace, steps, port, a, b)
  {
    trace := m.Run(steps);
    forall port: nat, a: nat, b: nat | a <= b <= |steps| && Waits(trace[a].table, port)
      ensures ServedInTurn(trace, steps, port, a, b)
    {
      WaitingIsServed(trace, m.requested, steps, port, a, b);
    }
  }

  // ------------------------------------------------------------- retransmission

  /** The state after n timeouts at which the request could be sent again. */
  ghost function AfterTimeouts(s: State, requested: Trio<bool>, n: nat): State
    requires Sound(s, requested)
  {
    if n == 0 then s
    else
      var before := AfterTimeouts(s, requested, n - 1);
      if before.table.InRange() then Next(before, requested, PcpTimeout(true)) else before
  }

  /** An unanswered request for a port that uses PCP is sent again four times; after that the round is given up. */
  lemma {:induction false} SentAgainFourTimes(s: State, requested: Trio<bool>, n: nat)
    requires Sound(s, requested) && s.table.pcp.At? && s.table.entries[s.table.pcp.index].uses.pcp && s.retries == 0
    requires n <= 5
    ensures var r := AfterTimeouts(s, requested, n);
      if n <= 4 then r.table == s.table && r.retries == n else r.table.pcp.Idle?
  {
    if n > 0 {
      SentAgainFourTimes(s, requested, n - 1);
      CompactedLaws(s.table.(pcp := Idle), 0);
    }
  }
}
