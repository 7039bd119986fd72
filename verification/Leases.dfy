/**
 * Which ports have leases (src/port_mapping.c): seen from one port, the list with its deletions, cursors and rounds of
 * requests does no more than note what the gateway answers, and give up leases with the last user of the port.
 */
module Leases {
  import opened PortMapping

  const NONE: Trio<bool> := Trio(false, false, false)

  /** The leases of a port; one that is not on the list has none. */
  function Lease(s: seq<Entry>, port: nat): Trio<bool> {
    var i := IndexOf(s, port);
    if i < |s| then s[i].mapped else NONE
  }

  /** The protocols that a port uses. */
  function UsedBy(s: seq<Entry>, port: nat): Trio<bool> {
    var i := IndexOf(s, port);
    if i < |s| then s[i].uses else NONE
  }

  /** No lease is kept for a port without users. */
  ghost predicate Clean(s: seq<Entry>) {
    forall i :: 0 <= i < |s| && !s[i].HasUsers() ==> s[i].mapped == NONE
  }

  ghost predicate AllFresh(s: seq<Entry>) {
    forall i :: 0 <= i < |s| ==> s[i].Fresh()
  }

  lemma LeaseAt(s: seq<Entry>, i: nat)
    requires DistinctPorts(s) && i < |s|
    ensures IndexOf(s, s[i].port) == i && Lease(s, s[i].port) == s[i].mapped && UsedBy(s, s[i].port) == s[i].uses
  {
  }

  /** A list that keeps all entries in use has the same leases. */
  lemma KeptLeases(s: seq<Entry>, r: seq<Entry>, port: nat)
    requires DistinctPorts(s) && DistinctPorts(r) && Clean(s) && AllFresh(s)
    requires (forall e :: e in r ==> e in s) && (forall e :: e in s && e.HasUsers() ==> e in r)
    ensures Lease(r, port) == Lease(s, port) && UsedBy(r, port) == UsedBy(s, port)
  {
    var i, j := IndexOf(s, port), IndexOf(r, port);
    if j < |r| {
      assert r[j] in s;
      var k :| 0 <= k < |s| && s[k] == r[j];
      LeaseAt(s, k);
    } else if i < |s| {
      var e := s[i];
      assert e.HasUsers() ==> e in r;
      assert e.uses == NONE;
    }
  }

  lemma KeptClean(s: seq<Entry>, r: seq<Entry>)
    requires Clean(s) && AllFresh(s) && forall e :: e in r ==> e in s
    ensures Clean(r) && AllFresh(r)
  {
    forall i | 0 <= i < |r|
      ensures r[i].Fresh() && (!r[i].HasUsers() ==> r[i].mapped == NONE)
    {
      assert r[i] in s;
    }
  }

  /** All that leases depend on is in order. */
  ghost predicate Neat(t: Table) {
    t.InRange() && DistinctPorts(t.entries) && Clean(t.entries) && AllFresh(t.entries)
  }

  ghost predicate SameLeases(t: Table, t': Table, port: nat) {
    Neat(t') && Lease(t'.entries, port) == Lease(t.entries, port) && UsedBy(t'.entries, port) == UsedBy(t.entries, port)
  }

  lemma RequestKeepsLeases(t: Table, i: nat, b: Backend, sent: bool, port: nat)
    requires Neat(t) && CursorOf(t, b).Idle?
    ensures SameLeases(t, Requested(t, i, b, sent), port)
  {
    RequestedLaws(t, i, b, sent);
    KeptLeases(t.entries, Requested(t, i, b, sent).entries, port);
    KeptClean(t.entries, Requested(t, i, b, sent).entries);
  }

  lemma CompactionKeepsLeases(t: Table, port: nat)
    requires Neat(t)
    ensures SameLeases(t, Compacted(t, 0), port)
  {
    CompactedLaws(t, 0);
    KeptLeases(t.entries, Compacted(t, 0).entries, port);
    KeptClean(t.entries, Compacted(t, 0).entries);
  }

  lemma SamePorts(s: seq<Entry>, r: seq<Entry>, port: nat)
    requires |s| == |r| && DistinctPorts(s) && forall i :: 0 <= i < |s| ==> r[i].port == s[i].port
    ensures DistinctPorts(r) && IndexOf(r, port) == IndexOf(s, port)
  {
    var i, j := IndexOf(s, port), IndexOf(r, port);
    assert i < |s| ==> r[i].port == port;
    assert j < |r| ==> s[j].port == port;
  }

  lemma MappedLeases(t: Table, i: nat, mapped: Trio<bool>, port: nat)
    requires Neat(t) && i < |t.entries| && (t.entries[i].HasUsers() || mapped == NONE)
    ensures var r := WithMapped(t, i, mapped);
      && Neat(r) && UsedBy(r.entries, port) == UsedBy(t.entries, port)
      && Lease(r.entries, port) == if t.entries[i].port == port then mapped else Lease(t.entries, port)
  {
    SamePorts(t.entries, WithMapped(t, i, mapped).entries, port);
    LeaseAt(t.entries, i);
  }

  lemma UpnpLeases(t: Table, grants: nat -> bool, port: nat)
    requires Neat(t)
    ensures var r, m := WithUpnp(t, grants), Lease(t.entries, port);
      && Neat(r) && UsedBy(r.entries, port) == UsedBy(t.entries, port)
      && Lease(r.entries, port) == m.(upnp := m.upnp || (UsedBy(t.entries, port).upnp && grants(port)))
  {
    SamePorts(t.entries, WithUpnp(t, grants).entries, port);
  }

  // ------------------------------------------------------------- the steps

  ghost predicate NeatState(s: State, requested: Trio<bool>) {
    Sound(s, requested) && Clean(s.table.entries)
  }

  lemma StateIsNeat(s: State, requested: Trio<bool>)
    requires NeatState(s, requested)
    ensures Neat(s.table)
  {
    forall i | 0 <= i < |s.table.entries|
      ensures s.table.entries[i].Fresh()
    {
      assert EntryOk(s.table.entries[i], requested, s.record.held, s.ready.upnp);
    }
  }

  /** A pending NAT-PMP request is for the port. */
  predicate AsksNatpmp(t: Table, port: nat) {
    t.natpmp.At? && t.natpmp.index < |t.entries| && t.entries[t.natpmp.index].port == port
  }

  /** The port has users. */
  ghost predicate InUse(s: seq<Entry>, port: nat) {
    exists i :: 0 <= i < |s| && s[i].port == port && s[i].HasUsers()
  }

  /**
   * What a step does to the leases of a port. A grant counts if the port still uses the protocol. UPnP leases are asked
   * for when the gateway's service is found, and for registered ports once it is known. With its last user a port
   * loses all leases. Nothing else changes them.
   */
  ghost predicate LeaseNext(s: State, requested: Trio<bool>, step: Step, next: Table, port: nat) {
    var m, u, m' := Lease(s.table.entries, port), UsedBy(s.table.entries, port), Lease(next.entries, port);
    match step
    case Register(sock, o) =>
      var asked := Registers(sock, requested, s.record.sockets) && s.ready.upnp && o.grants(port);
      m' == m.(upnp := m.upnp || (asked && UsedBy(next.entries, port).upnp))
    case Release(sock) =>
      if sock in s.record.sockets && sock.mappable && sock.port == port && !InUse(next.entries, port) then m' == NONE
      else m' == m
    case PcpResponse(p, fits, outcome, _) =>
      if p != port || !fits || outcome.Malformed? || !Listed(s.table.entries, port) then m' == m
      else m' == m.(pcp := outcome.Granted? && u.pcp)
    case PcpTimeout(_) => m' == m
    case NatpmpStep(event, _) =>
      if event.Success? && AsksNatpmp(s.table, port) then m' == m.(natpmp := u.natpmp) else m' == m
    case UpnpFound(grants) => m' == m.(upnp := m.upnp || (u.upnp && grants(port)))
  }

  lemma ReferencedLeases(t: Table, p: nat, requested: Trio<bool>, port: nat)
    requires Neat(t) && Any(requested)
    ensures Neat(Referenced(t, p, requested))
    ensures Lease(Referenced(t, p, requested).entries, port) == Lease(t.entries, port)
  {
    var s, i, r := WithEntry(t.entries, p), IndexOf(t.entries, p), Referenced(t, p, requested);
    var e := Bumped(s[i], requested);
    assert e.Fresh() && e.HasUsers() && e.port == p;
    assert DistinctPorts(s);
    SamePorts(s, r.entries, port);
    AppendedIndex(t.entries, p, port);
  }

  lemma AppendedIndex(s: seq<Entry>, p: nat, port: nat)
    ensures Lease(WithEntry(s, p), port) == Lease(s, port)
    ensures IndexOf(s, port) < |s| ==> IndexOf(WithEntry(s, p), port) == IndexOf(s, port)
    ensures IndexOf(s, port) == |s| ==>
      IndexOf(WithEntry(s, p), port) == if port == p then |s| else |WithEntry(s, p)|
  {
    if IndexOf(s, p) == |s| { assert (s + [Blank(p)])[..|s|] == s; }
  }

  lemma StartedLeases(t: Table, b: Backend, ready: bool, sent: bool, port: nat)
    requires Neat(t)
    ensures SameLeases(t, Started(t, b, ready, sent), port)
  {
    if Starts(t, b, ready) { RequestKeepsLeases(t, 0, b, sent, port); }
  }

  lemma RegisterLeases(s: State, requested: Trio<bool>, sock: Socket, o: Outside, port: nat)
    requires NeatState(s, requested)
    ensures var step := Register(sock, o);
      var r := Next(s, requested, step).table; Neat(r) && LeaseNext(s, requested, step, r, port)
  {
    StateIsNeat(s, requested);
    if Registers(sock, requested, s.record.sockets) {
      var t := Referenced(s.table, sock.port, requested);
      ReferencedLeases(s.table, sock.port, requested, port);
      ActivatedLeases(t, s.ready, o, port);
    }
  }

  lemma ActivatedLeases(t: Table, ready: Trio<bool>, o: Outside, port: nat)
    requires Neat(t)
    ensures var r, m := Activated(t, ready, o), Lease(t.entries, port);
      && Neat(r) && UsedBy(r.entries, port) == UsedBy(t.entries, port)
      && Lease(r.entries, port) == m.(upnp := m.upnp || (ready.upnp && o.grants(port) && UsedBy(r.entries, port).upnp))
  {
    var t1 := Started(t, Natpmp, ready.natpmp || o.natpmpUp, o.natpmpSent);
    StartedLeases(t, Natpmp, ready.natpmp || o.natpmpUp, o.natpmpSent, port);
    UpnpLeases(t1, o.grants, port);
    if UsedBy(t1.entries, port).upnp { UsesUpnp(t1.entries, IndexOf(t1.entries, port)); }
    StartedLeases(BeforePcp(t, ready, o), Pcp, ready.pcp || o.pcpUp, o.pcpSent, port);
  }

  lemma {:induction false} UsesUpnp(s: seq<Entry>, i: nat)
    requires i < |s| && s[i].uses.upnp
    ensures UsesAny(s).upnp
  {
    if i < |s| - 1 { UsesUpnp(s[..|s| - 1], i); }
  }

  lemma ReleaseLeases(s: State, requested: Trio<bool>, sock: Socket, port: nat)
    requires NeatState(s, requested)
    ensures var step := Release(sock);
      var r := Next(s, requested, step).table; Neat(r) && LeaseNext(s, requested, step, r, port)
  {
    StateIsNeat(s, requested);
    if sock in s.record.sockets {
      if sock.mappable {
        UnreferencedLeases(s, requested, sock.port, port);
        var t := Unreferenced(s.table, sock.port, s.ready.upnp);
        CompactionKeepsLeases(t, port);
        UseStays(t, port);
      } else {
        CompactionKeepsLeases(s.table, port);
      }
    }
  }

  lemma UseStays(t: Table, port: nat)
    requires Neat(t)
    ensures InUse(Compacted(t, 0).entries, port) <==> InUse(t.entries, port)
  {
    CompactedLaws(t, 0);
    var r := Compacted(t, 0).entries;
    if i :| 0 <= i < |t.entries| && t.entries[i].port == port && t.entries[i].HasUsers() { assert t.entries[i] in r; }
    if i :| 0 <= i < |r| && r[i].port == port && r[i].HasUsers() { assert r[i] in t.entries; }
  }

  lemma UnreferencedLeases(s: State, requested: Trio<bool>, p: nat, port: nat)
    requires NeatState(s, requested) && Neat(s.table)
    ensures var t := Unreferenced(s.table, p, s.ready.upnp);
      && Neat(t)
      && Lease(t.entries, port) ==
         if p == port && !InUse(t.entries, port) then NONE else Lease(s.table.entries, port)
  {
    var t, i := Unreferenced(s.table, p, s.ready.upnp), IndexOf(s.table.entries, p);
    if i < |s.table.entries| {
      assert EntryOk(s.table.entries[i], requested, s.record.held, s.ready.upnp);
      EntryReplaced(s.table, i, t.entries[i], port);
      UseAt(t.entries, i);
    }
  }

  lemma UseAt(s: seq<Entry>, i: nat)
    requires DistinctPorts(s) && i < |s|
    ensures InUse(s, s[i].port) <==> s[i].HasUsers()
  {
  }

  lemma EntryReplaced(t: Table, i: nat, e: Entry, port: nat)
    requires Neat(t) && i < |t.entries| && e.port == t.entries[i].port && e.Fresh()
    requires !e.HasUsers() ==> e.mapped == NONE
    ensures var r := t.(entries := t.entries[i := e]);
      Neat(r) && Lease(r.entries, port) == if e.port == port then e.mapped else Lease(t.entries, port)
  {
    SamePorts(t.entries, t.entries[i := e], port);
    LeaseAt(t.entries[i := e], i);
  }

  lemma ResponseLeases(s: State, requested: Trio<bool>, p: nat, fits: bool, outcome: Outcome, sent: bool, port: nat)
    requires NeatState(s, requested)
    ensures var step := PcpResponse(p, fits, outcome, sent);
      var r := Next(s, requested, step).table; Neat(r) && LeaseNext(s, requested, step, r, port)
  {
    StateIsNeat(s, requested);
    var t, i := s.table, IndexOf(s.table.entries, p);
    if fits && i < |t.entries| {
      var t', e := Responded(t, i, outcome), t.entries[i];
      LeaseAt(t.entries, i);
      assert !e.HasUsers() ==> !e.uses.pcp;
      MappedLeases(t, i, t'.entries[i].mapped, port);
      assert t' == WithMapped(t, i, t'.entries[i].mapped);
      if t.pcp == At(i) { RequestKeepsLeases(t'.(pcp := Idle), AfterOrAt(t.entries, i), Pcp, sent, port); }
    }
  }

  lemma TimeoutLeases(s: State, requested: Trio<bool>, sent: bool, port: nat)
    requires NeatState(s, requested)
    ensures SameLeases(s.table, Next(s, requested, PcpTimeout(sent)).table, port)
  {
    StateIsNeat(s, requested);
    var t := s.table;
    if t.pcp.Idle? {
      RequestKeepsLeases(t, 0, Pcp, sent, port);
    } else if !t.entries[t.pcp.index].uses.pcp {
      RequestKeepsLeases(t.(pcp := Idle), t.pcp.index, Pcp, sent, port);
    } else {
      CompactionKeepsLeases(t.(pcp := Idle), port);
    }
  }

  lemma NatpmpLeases(s: State, requested: Trio<bool>, event: NatpmpEvent, sent: bool, port: nat)
    requires NeatState(s, requested)
    ensures var step := NatpmpStep(event, sent);
      var r := Next(s, requested, step).table; Neat(r) && LeaseNext(s, requested, step, r, port)
  {
    StateIsNeat(s, requested);
    var t := s.table;
    if t.natpmp.Idle? {
      RequestKeepsLeases(t, 0, Natpmp, sent, port);
    } else if event.Failure? {
      CompactionKeepsLeases(t.(natpmp := Idle), port);
    } else if event.Success? {
      var c, a := t.natpmp.index, Answered(t);
      var e := t.entries[c];
      LeaseAt(t.entries, c);
      assert !e.HasUsers() ==> !e.uses.natpmp;
      MappedLeases(t, c, e.mapped.(natpmp := e.uses.natpmp), port);
      RequestKeepsLeases(a, c + 1, Natpmp, sent, port);
    }
  }

  /** Every step changes the leases of every port in just this way, and leaves no lease to a port without users. */
  lemma StepLeases(s: State, requested: Trio<bool>, step: Step, port: nat)
    requires NeatState(s, requested)
    ensures var r := Next(s, requested, step).table; Neat(r) && LeaseNext(s, requested, step, r, port)
  {
    StateIsNeat(s, requested);
    match step
    case Register(sock, o) => RegisterLeases(s, requested, sock, o, port);
    case Release(sock) => ReleaseLeases(s, requested, sock, port);
    case PcpResponse(p, fits, outcome, sent) => ResponseLeases(s, requested, p, fits, outcome, sent, port);
    case PcpTimeout(sent) => TimeoutLeases(s, requested, sent, port);
    case NatpmpStep(event, sent) => NatpmpLeases(s, requested, event, sent, port);
    case UpnpFound(grants) => UpnpLeases(s.table, grants, port);
  }

  // ------------------------------------------------------------- runs

  ghost predicate LeasesAt(trace: seq<State>, requested: Trio<bool>, steps: seq<Step>, port: nat, n: nat)
    requires n < |steps| < |trace|
  {
    LeaseNext(trace[n], requested, steps[n], trace[n + 1].table, port)
  }

  lemma {:induction false} CleanAt(trace: seq<State>, requested: Trio<bool>, steps: seq<Step>, n: nat)
    requires Traced(trace, requested, steps) && n <= |steps| && Clean(trace[0].table.entries)
    ensures NeatState(trace[n], requested)
  {
    if n == 0 {
      assert steps == [] || StepAt(trace, requested, steps, 0);
    } else {
      CleanAt(trace, requested, steps, n - 1);
      assert StepAt(trace, requested, steps, n - 1);
      StepLeases(trace[n - 1], requested, steps[n - 1], 0);
      assert n == |steps| || StepAt(trace, requested, steps, n);
    }
  }

  /**
   * In every run that starts without stale leases, the leases of every port go from state to state as the answers of
   * the gateway and the users of the port say, and no port without users has one.
   */
  lemma RunLeases(trace: seq<State>, requested: Trio<bool>, steps: seq<Step>, port: nat)
    requires Traced(trace, requested, steps) && Clean(trace[0].table.entries)
    ensures forall n :: 0 <= n < |steps| ==> LeasesAt(trace, requested, steps, port, n)
    ensures forall n :: 0 <= n <= |steps| ==> Clean(trace[n].table.entries)
  {
    forall n | 0 <= n < |steps|
      ensures LeasesAt(trace, requested, steps, port, n)
    {
      CleanAt(trace, requested, steps, n);
      assert StepAt(trace, requested, steps, n);
      StepLeases(trace[n], requested, steps[n], port);
    }
    forall n | 0 <= n <= |steps|
      ensures Clean(trace[n].table.entries)
    {
      CleanAt(trace, requested, steps, n);
    }
  }

  // ------------------------------------------------------------- NAT-PMP's rounds

  /** The first entry that uses NAT-PMP is asked for. */
  ghost predicate AsksFirst(t: Table) {
    t.natpmp.At? && t.natpmp.index < |t.entries| && t.natpmp.index == NextUser(t.entries, 0, Natpmp)
  }

  /** Without a request pending, NAT-PMP starts with the first entry that uses it, if there is one. */
  lemma NatpmpStarts(s: State, requested: Trio<bool>, event: NatpmpEvent, sent: bool)
    requires Sound(s, requested) && s.table.natpmp.Idle?
    ensures var r := Next(s, requested, NatpmpStep(event, sent)).table;
      (exists i :: 0 <= i < |s.table.entries| && s.table.entries[i].uses.natpmp) && sent <==> AsksFirst(r)
  {
    NothingToCompact(s.table, 0);
  }
}
