/**
 * Leases for mapped UDP ports (src/port_mapping.c): a list of ports with reference counts,
 * from which unused entries are deleted while NAT-PMP and PCP requests walk through it.
 */
module PortMapping {
  import opened Basics

  const REFS_MAX := 0xffff
  const MAX_RETRIES := 4

  /** One value for each of the three gateway protocols. */
  datatype Trio<T> = Trio(natpmp: T, upnp: T, pcp: T)

  datatype Entry = Entry(port: nat, fixed: Trio<bool>, refs: Trio<nat>, uses: Trio<bool>, mapped: Trio<bool>)
  {
    predicate HasUsers() {
      fixed.natpmp || fixed.upnp || fixed.pcp || refs.natpmp > 0 || refs.upnp > 0 || refs.pcp > 0
    }

    predicate HasLease() {
      mapped.natpmp || mapped.upnp || mapped.pcp
    }

    /** The flags in use: fixed or referenced. */
    function Refreshed(): Entry {
      this.(uses := Trio(fixed.natpmp || refs.natpmp > 0, fixed.upnp || refs.upnp > 0, fixed.pcp || refs.pcp > 0))
    }

    predicate Fresh() {
      this == Refreshed()
    }

    /** Leases are given up, except a UPnP lease while the gateway's UPnP service is not known. */
    function Released(upnpReady: bool): Entry {
      this.(mapped := Trio(false, mapped.upnp && !upnpReady, false))
    }
  }

  /** Where a protocol's pending request stands in the list. */
  datatype Cursor = Idle | At(index: nat)

  /** The list of mappings with the cursors of NAT-PMP and PCP. */
  datatype Table = Table(entries: seq<Entry>, natpmp: Cursor, pcp: Cursor)
  {
    predicate InRange() {
      (natpmp.At? ==> natpmp.index < |entries|) && (pcp.At? ==> pcp.index < |entries|)
    }

    /** The entry is in use or waited for. */
    predicate Needed(i: nat)
      requires i < |entries|
    {
      entries[i].HasUsers() || natpmp == At(i) || pcp == At(i)
    }

    ghost predicate Tidy() {
      forall i :: 0 <= i < |entries| ==> Needed(i)
    }
  }

  function Shift(c: Cursor, i: nat): Cursor {
    if c.At? && c.index > i then At(c.index - 1) else c
  }

  lemma WithoutAt(s: seq<Entry>, c: nat, k: nat)
    requires c < k < |s|
    ensures Without(s, c)[k - 1] == s[k]
  {
  }

  function Delete(t: Table, i: nat): Table
    requires i < |t.entries|
  {
    Table(Without(t.entries, i), Shift(t.natpmp, i), Shift(t.pcp, i))
  }

  /** The list without the entries from i on that nobody needs. */
  function Compacted(t: Table, i: nat): (r: Table)
    decreases |t.entries| - i
  {
    if i >= |t.entries| then t
    else if t.Needed(i) then Compacted(t, i + 1)
    else Compacted(Delete(t, i), i)
  }

  /** A cursor stands on the same entry in both tables. */
  ghost predicate SamePlace(s: seq<Entry>, c: Cursor, s': seq<Entry>, c': Cursor) {
    (c.Idle? <==> c'.Idle?) && (c.At? ==> c.index < |s| && c'.index < |s'| && s[c.index] == s'[c'.index])
  }

  ghost predicate DistinctPorts(s: seq<Entry>) {
    forall i, j :: 0 <= i < j < |s| ==> s[i].port != s[j].port
  }

  lemma DeleteLaws(t: Table, i: nat)
    requires t.InRange() && i < |t.entries| && !t.Needed(i)
    ensures Delete(t, i).InRange()
    ensures SamePlace(t.entries, t.natpmp, Delete(t, i).entries, Delete(t, i).natpmp)
    ensures SamePlace(t.entries, t.pcp, Delete(t, i).entries, Delete(t, i).pcp)
    ensures DistinctPorts(t.entries) ==> DistinctPorts(Delete(t, i).entries)
    ensures forall k :: 0 <= k < i ==>
      Delete(t, i).entries[k] == t.entries[k] && (Delete(t, i).Needed(k) <==> t.Needed(k))
    ensures forall e :: e in Delete(t, i).entries ==> e in t.entries
    ensures forall e :: e in t.entries && e.HasUsers() ==> e in Delete(t, i).entries
  {
    var s, r := t.entries, Delete(t, i).entries;
    assert forall k :: 0 <= k < i ==> r[k] == s[k];
    assert forall k :: i <= k < |r| ==> r[k] == s[k + 1];
    forall e | e in s && e.HasUsers()
      ensures e in r
    {
      var k :| 0 <= k < |s| && s[k] == e;
      assert k != i;
      assert r[if k < i then k else k - 1] == e;
    }
  }

  /**
   * What compaction keeps: the cursors on their entries, the ports distinct, every entry in use, and nothing
   * unneeded.
   */
  lemma {:induction false} CompactedLaws(t: Table, i: nat)
    requires t.InRange() && i <= |t.entries| && forall k :: 0 <= k < i ==> t.Needed(k)
    ensures var r := Compacted(t, i);
      && r.InRange() && r.Tidy()
      && SamePlace(t.entries, t.natpmp, r.entries, r.natpmp) && SamePlace(t.entries, t.pcp, r.entries, r.pcp)
      && (DistinctPorts(t.entries) ==> DistinctPorts(r.entries))
      && (forall e :: e in r.entries ==> e in t.entries)
      && (forall e :: e in t.entries && e.HasUsers() ==> e in r.entries)
    decreases |t.entries| - i
  {
    if i < |t.entries| {
      if t.Needed(i) {
        CompactedLaws(t, i + 1);
      } else {
        DeleteLaws(t, i);
        CompactedLaws(Delete(t, i), i);
      }
    }
  }

  // ------------------------------------------------------------- walking through the list

  datatype Backend = Natpmp | Pcp

  predicate Uses(e: Entry, b: Backend) {
    if b.Natpmp? then e.uses.natpmp else e.uses.pcp
  }

  /** The first entry from i on that uses the protocol, or the end of the list. */
  function NextUser(s: seq<Entry>, i: nat, b: Backend): (k: nat)
    requires i <= |s|
    ensures i <= k <= |s| && (k < |s| ==> Uses(s[k], b)) && forall j :: i <= j < k ==> !Uses(s[j], b)
    decreases |s| - i
  {
    if i == |s| || Uses(s[i], b) then i else NextUser(s, i + 1, b)
  }

  function Other(b: Backend): Backend {
    if b.Natpmp? then Pcp else Natpmp
  }

  function CursorOf(t: Table, b: Backend): Cursor {
    if b.Natpmp? then t.natpmp else t.pcp
  }

  function Moved(t: Table, b: Backend, c: Cursor): Table {
    if b.Natpmp? then t.(natpmp := c) else t.(pcp := c)
  }

  /**
   * A request for the first entry from i on; `sent` tells whether it could be sent, and if not, all waits for a
   * retry.
   */
  function Requested(t: Table, i: nat, b: Backend, sent: bool): Table {
    var c := Compacted(t, 0);
    var k := if i <= |c.entries| then NextUser(c.entries, i, b) else i;
    if k >= |c.entries| then c
    else if sent then Moved(c, b, At(k))
    else Compacted(c, 0)
  }

  lemma {:induction false} NothingToCompact(t: Table, i: nat)
    requires forall k :: i <= k < |t.entries| ==> t.Needed(k)
    ensures Compacted(t, i) == t
    decreases |t.entries| - i
  {
    if i < |t.entries| { NothingToCompact(t, i + 1); }
  }

  lemma {:induction false} CompactFrom(t: Table, i: nat, c: nat)
    requires i <= c <= |t.entries| && forall k :: i <= k < c ==> t.Needed(k)
    ensures Compacted(t, i) == Compacted(t, c)
    decreases c - i
  {
    if i < c { CompactFrom(t, i + 1, c); }
  }

  /** If at most one entry is not needed, compaction removes at most that one. */
  lemma CompactOne(t: Table, c: nat)
    requires t.InRange() && c < |t.entries| && forall k :: 0 <= k < |t.entries| && k != c ==> t.Needed(k)
    ensures Compacted(t, 0) == if t.Needed(c) then t else Delete(t, c)
    ensures Compacted(t, 0).Tidy()
  {
    CompactedLaws(t, 0);
    CompactFrom(t, 0, c);
    if t.Needed(c) {
      NothingToCompact(t, c);
    } else {
      var d := Delete(t, c);
      forall k | c <= k < |d.entries|
        ensures d.Needed(k)
      {
        assert t.Needed(k + 1) && d.entries[k] == t.entries[k + 1];
      }
      NothingToCompact(d, c);
    }
  }

  /** In a tidy list, only the entry a protocol waited for can go when it no longer waits. */
  lemma CompactWaited(t: Table, b: Backend, c: nat)
    requires t.InRange() && t.Tidy() && CursorOf(t, b) == At(c)
    ensures
      var t' := Moved(t, b, Idle);
      && Compacted(t', 0) == (if t'.Needed(c) then t' else Delete(t', c))
      && Compacted(Compacted(t', 0), 0) == Compacted(t', 0)
  {
    var t' := Moved(t, b, Idle);
    forall j | 0 <= j < |t.entries| && j != c
      ensures t'.Needed(j)
    {
      assert t.Needed(j);
    }
    CompactOne(t', c);
    NothingToCompact(Compacted(t', 0), 0);
  }

  /** Deleting an entry moves the next user one place down. */
  lemma {:induction false} NextUserWithout(s: seq<Entry>, c: nat, i: nat, b: Backend)
    requires c < i <= |s|
    ensures NextUser(Without(s, c), i - 1, b) == NextUser(s, i, b) - 1
    decreases |s| - i
  {
    if i < |s| {
      assert Without(s, c)[i - 1] == s[i];
      NextUserWithout(s, c, i + 1, b);
    }
  }

  /**
   * No entry is skipped: the walk goes on from the entry a request was pending for to the next one in the list that
   * uses PCP, even though compaction may delete that entry. It starts behind the entry if that has users, and at its
   * index otherwise.
   */
  lemma NoneIsSkipped(t: Table, c: nat, n: nat, sent: bool)
    requires t.InRange() && t.Tidy() && t.pcp == At(c) && t.entries[c].Fresh()
    requires if n == c then !t.entries[c].uses.pcp else n == c + 1 && t.entries[c].HasUsers()
    ensures var r, k := Requested(t.(pcp := Idle), n, Pcp, sent), NextUser(t.entries, c + 1, Pcp);
      && (r.pcp.At? <==> k < |t.entries| && sent)
      && (r.pcp.At? ==> r.pcp.index < |r.entries| && r.entries[r.pcp.index] == t.entries[k])
  {
    var t' := t.(pcp := Idle);
    CompactWaited(t, Pcp, c);
    NextAfterWaited(t.entries, c, n, t'.Needed(c));
    assert Compacted(t', 0).entries == if t'.Needed(c) then t.entries else Without(t.entries, c);
  }

  /** The search from n on finds the next user after c, be the entry at c kept or deleted. */
  lemma NextAfterWaited(s: seq<Entry>, c: nat, n: nat, kept: bool)
    requires c < |s| && (n == c || n == c + 1)
    requires if n == c then !s[c].uses.pcp else kept
    ensures
      var r, k := if kept then s else Without(s, c), NextUser(s, c + 1, Pcp);
      n <= |r| && (NextUser(r, n, Pcp) < |r| <==> k < |s|) && (k < |s| ==> r[NextUser(r, n, Pcp)] == s[k])
  {
    if kept {
      assert n == c ==> NextUser(s, c, Pcp) == NextUser(s, c + 1, Pcp);
    } else {
      NextInRest(s, c);
    }
  }

  lemma NextInRest(s: seq<Entry>, c: nat)
    requires c < |s|
    ensures
      var r, k := Without(s, c), NextUser(s, c + 1, Pcp);
      c <= |r| == |s| - 1 && NextUser(r, c, Pcp) == k - 1 && (k < |s| ==> r[k - 1] == s[k])
  {
    NextUserWithout(s, c, c + 1, Pcp);
    var k := NextUser(s, c + 1, Pcp);
    if k < |s| { WithoutAt(s, c, k); }
  }

  /**
   * The NAT-PMP walk always goes on behind the current index. So it finds the next entry that uses NAT-PMP, except in
   * one case: if the entry it comes from is deleted, the next one moves to its index and is skipped.
   */
  lemma NatpmpMaySkip(t: Table, c: nat)
    requires t.InRange() && t.Tidy() && DistinctPorts(t.entries) && t.natpmp == At(c)
    ensures GoesToNext(t, c, Requested(t.(natpmp := Idle), c + 1, Natpmp, true)) <==> !LosesNext(t, c)
  {
    var t' := t.(natpmp := Idle);
    CompactWaited(t, Natpmp, c);
    if !t'.Needed(c) { NextBehindDeleted(t, c); }
  }

  /** Behind a deleted entry, the search sees the entry after the next one first. */
  lemma NextBehindDeleted(t: Table, c: nat)
    requires c < |t.entries| && DistinctPorts(t.entries)
    ensures var s := Without(t.entries, c);
      if c + 1 >= |t.entries| then c + 1 > |s|
      else
        var k, m := NextUser(t.entries, c + 1, Natpmp), NextUser(s, c + 1, Natpmp);
        if t.entries[c + 1].uses.natpmp then k == c + 1 && (m < |s| ==> s[m] != t.entries[k])
        else (k < |t.entries| <==> m < |s|) && (m < |s| ==> s[m] == t.entries[k])
  {
    if c + 1 < |t.entries| {
      NextUserWithout(t.entries, c, c + 2, Natpmp);
      var n := NextUser(t.entries, c + 2, Natpmp);
      if n < |t.entries| { WithoutAt(t.entries, c, n); }
    }
  }

  /** NAT-PMP goes on with the next entry of the list that uses it, or stops if there is none. */
  ghost predicate GoesToNext(t: Table, c: nat, r: Table)
    requires c < |t.entries|
  {
    var k := NextUser(t.entries, c + 1, Natpmp);
    if k == |t.entries| then r.natpmp.Idle?
    else r.natpmp.At? && r.natpmp.index < |r.entries| && r.entries[r.natpmp.index] == t.entries[k]
  }

  /** The entry at c is deleted, and the one behind it uses NAT-PMP. */
  predicate LosesNext(t: Table, c: nat)
    requires c < |t.entries|
  {
    && !t.entries[c].HasUsers() && t.pcp != At(c)
    && c + 1 < |t.entries| && t.entries[c + 1].uses.natpmp
  }

  /** What a request keeps: the other protocol's cursor on its entry, distinct ports, and every entry in use. */
  lemma RequestedLaws(t: Table, i: nat, b: Backend, sent: bool)
    requires t.InRange() && CursorOf(t, b).Idle?
    ensures var r := Requested(t, i, b, sent);
      && r.InRange() && r.Tidy() && SamePlace(t.entries, CursorOf(t, Other(b)), r.entries, CursorOf(r, Other(b)))
      && (DistinctPorts(t.entries) ==> DistinctPorts(r.entries))
      && (forall e :: e in r.entries ==> e in t.entries)
      && (forall e :: e in t.entries && e.HasUsers() ==> e in r.entries)
  {
    var c := Compacted(t, 0);
    CompactedLaws(t, 0);
    NothingToCompact(c, 0);
    var k := if i <= |c.entries| then NextUser(c.entries, i, b) else i;
    if k < |c.entries| && sent {
      var r := Moved(c, b, At(k));
      forall j | 0 <= j < |r.entries|
        ensures r.Needed(j)
      {
        assert c.Needed(j);
      }
    }
  }

  // ------------------------------------------------------------- sockets and references

  datatype Socket = Socket(id: nat, port: nat, mappable: bool)

  ghost function UsersOf(sockets: set<Socket>, port: nat): nat {
    |set s | s in sockets && s.port == port|
  }

  /** The references that n registered sockets hold: as many for each protocol asked for. */
  function RefsFor(requested: Trio<bool>, n: nat): Trio<nat> {
    Trio(if requested.natpmp then n else 0, if requested.upnp then n else 0, if requested.pcp then n else 0)
  }

  predicate Any(requested: Trio<bool>) {
    requested.natpmp || requested.upnp || requested.pcp
  }

  predicate AtLeast(uses: Trio<bool>, backends: Trio<bool>) {
    (backends.natpmp ==> uses.natpmp) && (backends.upnp ==> uses.upnp) && (backends.pcp ==> uses.pcp)
  }

  ghost predicate ListedFor(s: seq<Entry>, port: nat, backends: Trio<bool>) {
    exists i :: 0 <= i < |s| && s[i].port == port && AtLeast(s[i].uses, backends)
  }

  function Fixed(e: Entry, backends: Trio<bool>): Entry {
    e.(fixed := Trio(e.fixed.natpmp || backends.natpmp, e.fixed.upnp || backends.upnp,
                     e.fixed.pcp || backends.pcp)).Refreshed()
  }

  /** What is true of every entry; the references are what the port's counter holds. */
  ghost predicate EntryOk(e: Entry, requested: Trio<bool>, held: nat -> nat, upnpReady: bool) {
    && e.port > 0 && e.Fresh() && e.refs == RefsFor(requested, held(e.port))
    && (e.mapped.upnp ==> upnpReady)
  }

  /** Nothing is counted yet. */
  function Uncounted(): nat -> nat {
    (p: nat) => 0
  }

  ghost predicate Listed(s: seq<Entry>, port: nat) {
    exists i :: 0 <= i < |s| && s[i].port == port
  }

  /** A port that is counted is on the list. */
  ghost predicate CountedOk(s: seq<Entry>, requested: Trio<bool>, held: nat -> nat) {
    forall p :: held(p) > 0 ==> Any(requested) && Listed(s, p)
  }

  ghost predicate ListOk(s: seq<Entry>, requested: Trio<bool>, held: nat -> nat, upnpReady: bool) {
    && DistinctPorts(s) && CountedOk(s, requested, held)
    && forall i :: 0 <= i < |s| ==> EntryOk(s[i], requested, held, upnpReady)
  }

  /** A list that keeps all entries in use is still in order. */
  lemma KeptListOk(s: seq<Entry>, r: seq<Entry>, requested: Trio<bool>, held: nat -> nat, upnpReady: bool)
    requires ListOk(s, requested, held, upnpReady) && DistinctPorts(r)
    requires (forall e :: e in r ==> e in s) && (forall e :: e in s && e.HasUsers() ==> e in r)
    ensures ListOk(r, requested, held, upnpReady)
  {
    forall p | held(p) > 0
      ensures Any(requested) && Listed(r, p)
    {
      assert Listed(s, p);
      var i :| 0 <= i < |s| && s[i].port == p;
      assert EntryOk(s[i], requested, held, upnpReady) && s[i].HasUsers();
      assert s[i] in r;
    }
    forall i | 0 <= i < |r|
      ensures EntryOk(r[i], requested, held, upnpReady)
    {
      assert r[i] in s;
    }
  }

  /** One more socket on a port counts there and nowhere else. */
  lemma OneMoreUser(sockets: set<Socket>, k: Socket, port: nat)
    requires k !in sockets
    ensures UsersOf(sockets + {k}, port) == UsersOf(sockets, port) + if k.port == port then 1 else 0
  {
    var before, after := set s | s in sockets && s.port == port, set s | s in sockets + {k} && s.port == port;
    assert after == if k.port == port then before + {k} else before;
  }

  /** The counters with one socket more on the port; a counter stops at its largest value. */
  function Raised(held: nat -> nat, port: nat): nat -> nat {
    p => if p != port then held(p) else if held(p) != REFS_MAX then held(p) + 1 else held(p)
  }

  /** The counters with one socket less on the port; a counter stops at zero. */
  function Lowered(held: nat -> nat, port: nat): nat -> nat {
    p => if p == port && held(p) > 0 then held(p) - 1 else held(p)
  }

  /** Changing an entry without changing its port. */
  lemma EntryChanged(s: seq<Entry>, i: nat, e: Entry, requested: Trio<bool>, held: nat -> nat, held': nat -> nat,
      upnpReady: bool)
    requires ListOk(s, requested, held, upnpReady) && i < |s| && e.port == s[i].port
    requires EntryOk(e, requested, held', upnpReady) && (held'(e.port) > 0 ==> Any(requested))
    requires forall p :: p != e.port ==> held'(p) == held(p)
    ensures ListOk(s[i := e], requested, held', upnpReady)
  {
    var r := s[i := e];
    assert forall j :: 0 <= j < |s| ==> r[j].port == s[j].port;
    forall p | held'(p) > 0
      ensures Any(requested) && Listed(r, p)
    {
      if p == e.port {
        assert r[i].port == p;
      } else {
        assert held(p) > 0;
        var j :| 0 <= j < |s| && s[j].port == p;
        assert r[j].port == p;
      }
    }
    forall j | 0 <= j < |r|
      ensures EntryOk(r[j], requested, held', upnpReady)
    {
      if j != i { assert EntryOk(s[j], requested, held, upnpReady) && s[j].port != e.port; }
    }
  }

  /** One reference more for each requested protocol, as far as the counters go. */
  function Bumped(e: Entry, requested: Trio<bool>): Entry {
    e.(refs := Trio(if requested.natpmp && e.refs.natpmp != REFS_MAX then e.refs.natpmp + 1 else e.refs.natpmp,
                    if requested.upnp && e.refs.upnp != REFS_MAX then e.refs.upnp + 1 else e.refs.upnp,
                    if requested.pcp && e.refs.pcp != REFS_MAX then e.refs.pcp + 1 else e.refs.pcp)).Refreshed()
  }

  /** One reference less for each protocol that has any. */
  function Dropped(e: Entry): Entry {
    e.(refs := Trio(if e.refs.natpmp > 0 then e.refs.natpmp - 1 else 0,
                    if e.refs.upnp > 0 then e.refs.upnp - 1 else 0,
                    if e.refs.pcp > 0 then e.refs.pcp - 1 else 0)).Refreshed()
  }

  /** The first entry with the port, or the end of the list. */
  function IndexOf(s: seq<Entry>, port: nat): (i: nat)
    ensures i <= |s| && (i < |s| ==> s[i].port == port) && forall j :: 0 <= j < i ==> s[j].port != port
  {
    if s == [] then 0
    else
      var i := IndexOf(s[..|s| - 1], port);
      if i < |s| - 1 || s[|s| - 1].port == port then i else |s|
  }

  function Blank(port: nat): Entry {
    var none := Trio(false, false, false);
    Entry(port, none, Trio(0, 0, 0), none, none)
  }

  /** The list with an entry for the port, at the end if there was none. */
  function WithEntry(s: seq<Entry>, port: nat): (r: seq<Entry>)
    ensures |r| >= |s| && IndexOf(s, port) < |r|
  {
    if IndexOf(s, port) < |s| then s else s + [Blank(port)]
  }

  function Referenced(t: Table, port: nat, requested: Trio<bool>): Table {
    var s, i := WithEntry(t.entries, port), IndexOf(t.entries, port);
    t.(entries := s[i := Bumped(s[i], requested)])
  }

  function FixedFor(t: Table, port: nat, backends: Trio<bool>): Table {
    var s, i := WithEntry(t.entries, port), IndexOf(t.entries, port);
    t.(entries := s[i := Fixed(s[i], backends)])
  }

  /** A list stays tidy if the port's entry, be it a new one, gets users. */
  lemma StaysTidy(t: Table, port: nat, e: Entry)
    requires t.InRange() && t.Tidy() && e.HasUsers()
    ensures t.(entries := WithEntry(t.entries, port)[IndexOf(t.entries, port) := e]).Tidy()
  {
    var i, t' := IndexOf(t.entries, port), t.(entries := WithEntry(t.entries, port)[IndexOf(t.entries, port) := e]);
    forall j | 0 <= j < |t'.entries|
      ensures t'.Needed(j)
    {
      if j != i { assert t.Needed(j) && t'.entries[j] == t.entries[j]; }
    }
  }

  lemma ReferencedIsTidy(t: Table, port: nat, requested: Trio<bool>)
    requires t.InRange() && t.Tidy() && Any(requested)
    ensures Referenced(t, port, requested).Tidy()
  {
    StaysTidy(t, port, Bumped(WithEntry(t.entries, port)[IndexOf(t.entries, port)], requested));
  }

  lemma FixedIsTidy(t: Table, port: nat, backends: Trio<bool>)
    requires t.InRange() && t.Tidy() && Any(backends)
    ensures FixedFor(t, port, backends).Tidy()
  {
    StaysTidy(t, port, Fixed(WithEntry(t.entries, port)[IndexOf(t.entries, port)], backends));
  }

  /** A fixed port is listed for all its protocols. */
  lemma FixedIsListed(t: Table, port: nat, backends: Trio<bool>)
    ensures ListedFor(FixedFor(t, port, backends).entries, port, backends)
  {
    var s, i := FixedFor(t, port, backends).entries, IndexOf(t.entries, port);
    assert s[i].port == port && AtLeast(s[i].uses, backends);
  }

  /** One reference less on the port; leases go with the last user. */
  function Unreferenced(t: Table, port: nat, upnpReady: bool): Table {
    var i := IndexOf(t.entries, port);
    if i == |t.entries| then t
    else
      var e := Dropped(t.entries[i]);
      t.(entries := t.entries[i := if e.HasUsers() then e else e.Released(upnpReady)])
  }

  /** A release: one reference less on the socket's port, and unused entries go. */
  function ReleasedFrom(t: Table, sock: Socket, sockets: set<Socket>, upnpReady: bool): Table {
    if sock !in sockets then t
    else Compacted(if sock.mappable then Unreferenced(t, sock.port, upnpReady) else t, 0)
  }

  /** What a response to a request for the entry at i leaves of its lease. */
  function Responded(t: Table, i: nat, outcome: Outcome): Table
    requires i < |t.entries|
  {
    var e := t.entries[i];
    match outcome
    case Refused => WithMapped(t, i, e.mapped.(pcp := false))
    case Malformed => t
    case Granted => WithMapped(t, i, e.mapped.(pcp := e.uses.pcp))
  }

  /** The gateway's UPnP service is asked for the port if the entry uses it and has no lease yet. */
  function UpnpAsked(e: Entry, grants: nat -> bool): Entry {
    if e.uses.upnp && !e.mapped.upnp && grants(e.port) then e.(mapped := e.mapped.(upnp := true)) else e
  }

  function WithUpnp(t: Table, grants: nat -> bool): Table {
    t.(entries := seq(|t.entries|, i requires 0 <= i < |t.entries| => UpnpAsked(t.entries[i], grants)))
  }

  /** A protocol in use is started; one that is not set up yet has no request pending. */
  predicate Starts(t: Table, b: Backend, ready: bool) {
    (if b.Natpmp? then UsesAny(t.entries).natpmp else UsesAny(t.entries).pcp) && CursorOf(t, b).Idle? && ready
  }

  function Started(t: Table, b: Backend, ready: bool, sent: bool): Table {
    if Starts(t, b, ready) then Requested(t, 0, b, sent) else t
  }

  /** NAT-PMP and UPnP have been started, and PCP is next. */
  function BeforePcp(t: Table, ready: Trio<bool>, o: Outside): Table {
    var t1 := Started(t, Natpmp, ready.natpmp || o.natpmpUp, o.natpmpSent);
    if UsesAny(t1.entries).upnp && ready.upnp then WithUpnp(t1, o.grants) else t1
  }

  function Activated(t: Table, ready: Trio<bool>, o: Outside): Table {
    Started(BeforePcp(t, ready, o), Pcp, ready.pcp || o.pcpUp, o.pcpSent)
  }

  /** Which protocols are set up after they have been started. */
  function SetUp(t: Table, ready: Trio<bool>, o: Outside): Trio<bool> {
    Trio(ready.natpmp || Starts(t, Natpmp, o.natpmpUp), ready.upnp,
         ready.pcp || Starts(BeforePcp(t, ready, o), Pcp, o.pcpUp))
  }

  /**
   * What the timer does to the table and the retries: without a pending request it starts a new round at the first
   * entry. An entry that no longer uses PCP hands over to the next one that does. Otherwise the request is sent again,
   * up to four times, before the round is given up.
   */
  function TimedOut(t: Table, retries: nat, sent: bool): (Table, nat)
    requires t.InRange()
  {
    if t.pcp.Idle? then (Requested(t, 0, Pcp, sent), 0)
    else if !t.entries[t.pcp.index].uses.pcp then (Requested(t.(pcp := Idle), t.pcp.index, Pcp, sent), 0)
    else if retries < MAX_RETRIES && sent then (t, retries + 1)
    else (Compacted(t.(pcp := Idle), 0), 0)
  }

  /** The table after a response for the port at i. */
  function AfterResponse(t: Table, i: nat, outcome: Outcome, sent: bool): Table
    requires i < |t.entries|
  {
    if t.pcp != At(i) then Responded(t, i, outcome)
    else Requested(Responded(t, i, outcome).(pcp := Idle), AfterOrAt(t.entries, i), Pcp, sent)
  }

  function AfterNatpmp(t: Table, event: NatpmpEvent, sent: bool): Table
    requires t.InRange()
  {
    if t.natpmp.Idle? then Requested(t, 0, Natpmp, sent)
    else match event
      case TryAgain => t
      case Failure => Compacted(t.(natpmp := Idle), 0)
      case Success => Requested(Answered(t), t.natpmp.index + 1, Natpmp, sent)
  }

  lemma Appended(s: seq<Entry>, e: Entry, requested: Trio<bool>, held: nat -> nat, upnpReady: bool)
    requires ListOk(s, requested, held, upnpReady) && !Listed(s, e.port)
    requires EntryOk(e, requested, held, upnpReady)
    ensures ListOk(s + [e], requested, held, upnpReady)
  {
    forall p | held(p) > 0
      ensures Listed(s + [e], p)
    {
      assert Listed(s, p);
      var i :| 0 <= i < |s| && s[i].port == p;
      assert (s + [e])[i].port == p;
    }
  }

  lemma ReferenceAdded(s: seq<Entry>, i: nat, requested: Trio<bool>, held: nat -> nat, upnpReady: bool)
    requires ListOk(s, requested, held, upnpReady) && i < |s| && Any(requested)
    ensures ListOk(s[i := Bumped(s[i], requested)], requested, Raised(held, s[i].port), upnpReady)
  {
    assert EntryOk(s[i], requested, held, upnpReady);
    EntryChanged(s, i, Bumped(s[i], requested), requested, held, Raised(held, s[i].port), upnpReady);
  }

  lemma ReferenceDropped(s: seq<Entry>, i: nat, e: Entry, requested: Trio<bool>, held: nat -> nat, upnpReady: bool)
    requires ListOk(s, requested, held, upnpReady) && i < |s|
    requires e == Dropped(s[i]) || e == Dropped(s[i]).Released(upnpReady)
    ensures ListOk(s[i := e], requested, Lowered(held, s[i].port), upnpReady)
  {
    assert EntryOk(s[i], requested, held, upnpReady);
    EntryChanged(s, i, e, requested, held, Lowered(held, s[i].port), upnpReady);
  }

  /** A release on a port that is not on the list any more. */
  lemma NothingDropped(s: seq<Entry>, port: nat, requested: Trio<bool>, held: nat -> nat, upnpReady: bool)
    requires ListOk(s, requested, held, upnpReady) && !Listed(s, port)
    ensures ListOk(s, requested, Lowered(held, port), upnpReady)
  {
    assert held(port) == 0;
    assert forall p :: Lowered(held, port)(p) == held(p);
  }

  // ------------------------------------------------------------- the state and its steps

  function UsesAny(s: seq<Entry>): Trio<bool> {
    if s == [] then Trio(false, false, false)
    else
      var before, last := UsesAny(s[..|s| - 1]), s[|s| - 1].uses;
      Trio(before.natpmp || last.natpmp, before.upnp || last.upnp, before.pcp || last.pcp)
  }

  /** What NAT-PMP reports: nothing yet, a failure or an unusable response, or a mapping. */
  datatype NatpmpEvent = TryAgain | Failure | Success

  datatype Outcome = Refused | Malformed | Granted

  /** What the outside world answers while protocols are started. */
  datatype Outside = Outside(natpmpUp: bool, natpmpSent: bool, grants: nat -> bool, pcpUp: bool, pcpSent: bool)

  datatype Step =
    | Register(sock: Socket, o: Outside)
    | Release(sock: Socket)
    | PcpResponse(port: nat, fits: bool, outcome: Outcome, sent: bool)
    | PcpTimeout(sent: bool)
    | NatpmpStep(event: NatpmpEvent, sent: bool)
    | UpnpFound(grants: nat -> bool)

  predicate Registers(sock: Socket, requested: Trio<bool>, sockets: set<Socket>) {
    sock !in sockets && sock.mappable && Any(requested) && sock.port > 0
  }

  /** The registered sockets, and what the counters of the ports hold. */
  datatype Record = Record(sockets: set<Socket>, held: nat -> nat)

  ghost function Recorded(r: Record, requested: Trio<bool>, step: Step): Record {
    if step.Register? && Registers(step.sock, requested, r.sockets) then
      Record(r.sockets + {step.sock}, Raised(r.held, step.sock.port))
    else if step.Release? && step.sock in r.sockets then
      Record(r.sockets - {step.sock}, if step.sock.mappable then Lowered(r.held, step.sock.port) else r.held)
    else r
  }

  ghost function RecordAfter(r: Record, requested: Trio<bool>, steps: seq<Step>): Record {
    if steps == [] then r
    else Recorded(RecordAfter(r, requested, steps[..|steps| - 1]), requested, steps[|steps| - 1])
  }

  /** All that a step depends on; `ready` tells which protocols are set up. */
  datatype State = State(table: Table, record: Record, retries: nat, ready: Trio<bool>)

  ghost predicate Sound(s: State, requested: Trio<bool>) {
    s.table.InRange() && s.table.Tidy() && ListOk(s.table.entries, requested, s.record.held, s.ready.upnp)
  }

  /** The new record is the same in all steps. */
  ghost function Next(s: State, requested: Trio<bool>, step: Step): State
    requires s.table.InRange()
  {
    var t, r := s.table, Recorded(s.record, requested, step);
    match step
    case Register(sock, o) =>
      if !Registers(sock, requested, s.record.sockets) then s
      else
        var t' := Referenced(t, sock.port, requested);
        var restarts := Starts(BeforePcp(t', s.ready, o), Pcp, s.ready.pcp || o.pcpUp);
        State(Activated(t', s.ready, o), r, if restarts then 0 else s.retries, SetUp(t', s.ready, o))
    case Release(sock) => State(ReleasedFrom(t, sock, s.record.sockets, s.ready.upnp), r, s.retries, s.ready)
    case PcpResponse(port, fits, outcome, sent) =>
      var i := IndexOf(t.entries, port);
      if !fits || i == |t.entries| then s
      else State(AfterResponse(t, i, outcome, sent), r, if t.pcp == At(i) then 0 else s.retries, s.ready)
    case PcpTimeout(sent) => var (t', retries) := TimedOut(t, s.retries, sent); State(t', r, retries, s.ready)
    case NatpmpStep(event, sent) => State(AfterNatpmp(t, event, sent), r, s.retries, s.ready)
    case UpnpFound(grants) => State(WithUpnp(t, grants), r, s.retries, s.ready.(upnp := true))
  }

  ghost predicate StepAt(trace: seq<State>, requested: Trio<bool>, steps: seq<Step>, n: nat)
    requires n < |steps| && |trace| == |steps| + 1
  {
    Sound(trace[n], requested) && trace[n + 1] == Next(trace[n], requested, steps[n])
  }

  /** The states of a run, all of them in order. */
  ghost predicate Traced(trace: seq<State>, requested: Trio<bool>, steps: seq<Step>) {
    && |trace| == |steps| + 1 && Sound(trace[|steps|], requested)
    && forall n :: 0 <= n < |steps| ==> StepAt(trace, requested, steps, n)
  }

  class Mapping {
    var table: Table
    var uses: Trio<bool>
    var sockets: set<Socket>
    ghost var held: nat -> nat
    var retries: nat
    var natpmpReady: bool
    var upnpReady: bool
    var pcpReady: bool
    const requested: Trio<bool>

    /** The list is in order, except that it may hold entries nobody needs. */
    ghost predicate InOrder()
      reads this
    {
      table.InRange() && ListOk(table.entries, requested, held, upnpReady)
    }

    ghost predicate Valid()
      reads this
    {
      InOrder() && table.Tidy() && uses == UsesAny(table.entries)
    }

    ghost function Ready(): Trio<bool>
      reads this
    {
      Trio(natpmpReady, upnpReady, pcpReady)
    }

    ghost function Snapshot(): State
      reads this
    {
      State(table, Record(sockets, held), retries, Ready())
    }

    constructor (requested: Trio<bool>)
      ensures Valid() && table == Table([], Idle, Idle) && sockets == {} && held == Uncounted() &&
        this.requested == requested
      ensures !natpmpReady && !upnpReady && !pcpReady
    {
      this.requested := requested;
      table, uses, sockets := Table([], Idle, Idle), Trio(false, false, false), {};
      retries, natpmpReady, upnpReady, pcpReady, held := 0, false, false, false, Uncounted();
    }

    method Recompute()
      modifies `uses
      ensures uses == UsesAny(table.entries)
    {
      uses := Trio(false, false, false);
      for i := 0 to |table.entries|
        invariant uses == UsesAny(table.entries[..i])
      {
        assert table.entries[..i + 1][..i] == table.entries[..i];
        var e := table.entries[i].uses;
        uses := Trio(uses.natpmp || e.natpmp, uses.upnp || e.upnp, uses.pcp || e.pcp);
      }
      assert table.entries[..|table.entries|] == table.entries;
    }

    /** Deletes the entries nobody needs and gives up their leases, keeping the cursors on their entries. */
    method Compact()
      requires table.InRange() && forall e :: e in table.entries && e.mapped.upnp ==> upnpReady
      modifies `table, `uses
      ensures table == Compacted(old(table), 0) && uses == UsesAny(table.entries)
    {
      var i := 0;
      while i < |table.entries|
        invariant 0 <= i <= |table.entries| && Compacted(table, i) == Compacted(old(table), 0)
        invariant forall e :: e in table.entries && e.mapped.upnp ==> upnpReady
        decreases |table.entries| - i
      {
        var e := table.entries[i];
        if e.HasUsers() || table.natpmp == At(i) || table.pcp == At(i) || e.Released(upnpReady).HasLease() {
          i := i + 1;
        } else {
          table := Delete(table, i);
        }
      }
      Recompute();
    }

    method Find(port: nat) returns (i: nat)
      ensures i == IndexOf(table.entries, port) && (i == |table.entries| <==> !Listed(table.entries, port))
    {
      i := 0;
      while i < |table.entries|
        invariant 0 <= i <= |table.entries| && forall j :: 0 <= j < i ==> table.entries[j].port != port
      {
        if table.entries[i].port == port {
          return;
        }
        i := i + 1;
      }
    }

    method FindUser(from: nat, b: Backend) returns (i: nat)
      ensures i == if from <= |table.entries| then NextUser(table.entries, from, b) else from
    {
      i := from;
      while i < |table.entries| && !Uses(table.entries[i], b)
        invariant if from <= |table.entries| then from <= i <= |table.entries| else i == from
        invariant from <= |table.entries| ==> NextUser(table.entries, i, b) == NextUser(table.entries, from, b)
      {
        i := i + 1;
      }
      assert i <= |table.entries| ==> NextUser(table.entries, i, b) == i;
    }

    /** Starts a request for the first entry from `from` on that uses the protocol. */
    method Request(from: nat, b: Backend, sent: bool)
      requires InOrder() && CursorOf(table, b).Idle?
      modifies `table, `uses, `retries
      ensures Valid() && table == Requested(old(table), from, b, sent) && retries == if b.Pcp? then 0 else old(retries)
      ensures SamePlace(old(table).entries, CursorOf(old(table), Other(b)), table.entries, CursorOf(table, Other(b)))
    {
      ghost var r := Requested(table, from, b, sent);
      RequestedLaws(table, from, b, sent);
      KeptListOk(table.entries, r.entries, requested, held, upnpReady);
      SendRequest(from, b, sent);
    }

    method SendRequest(from: nat, b: Backend, sent: bool)
      requires table.InRange() && CursorOf(table, b).Idle?
      requires forall e :: e in table.entries && e.mapped.upnp ==> upnpReady
      modifies `table, `uses, `retries
      ensures table == Requested(old(table), from, b, sent) && uses == UsesAny(table.entries)
      ensures retries == if b.Pcp? then 0 else old(retries)
    {
      CompactedLaws(table, 0);
      Compact();
      var i := FindUser(from, b);
      if b.Pcp? { retries := 0; }
      if i < |table.entries| {
        if sent {
          table := Moved(table, b, At(i));
        } else {
          Compact();
        }
      }
    }

    /** Gives up the round of requests and waits for a retry. */
    method Retry(b: Backend)
      requires InOrder()
      modifies `table, `uses, `retries
      ensures Valid() && table == Compacted(Moved(old(table), b, Idle), 0) && CursorOf(table, b).Idle?
      ensures retries == if b.Pcp? then 0 else old(retries)
      ensures SamePlace(old(table).entries, CursorOf(old(table), Other(b)), table.entries, CursorOf(table, Other(b)))
    {
      table := Moved(table, b, Idle);
      if b.Pcp? { retries := 0; }
      CompactedLaws(table, 0);
      KeptListOk(table.entries, Compacted(table, 0).entries, requested, held, upnpReady);
      Compact();
    }

    /**
     * Goes on from the entry at c, for which a request was pending, to the next one that uses PCP. The search starts
     * behind the entry if it has users, and at its index if it does not use PCP.
     */
    method Advance(c: nat, n: nat, sent: bool)
      requires Valid() && table.pcp == At(c)
      requires if n == c then !table.entries[c].uses.pcp else n == c + 1 && table.entries[c].HasUsers()
      modifies `table, `uses, `retries
      ensures Valid() && Follows(old(table.entries), c, table, sent)
      ensures table == Requested(old(table).(pcp := Idle), n, Pcp, sent) && retries == 0
    {
      NoneIsSkipped(table, c, n, sent);
      table := table.(pcp := Idle);
      Request(n, Pcp, sent);
    }

    /** The port's entry, which is created if need be. */
    method FindOrAdd(port: nat) returns (i: nat)
      requires InOrder() && port > 0
      modifies `table
      ensures InOrder() && i == IndexOf(old(table).entries, port)
      ensures table == old(table).(entries := WithEntry(old(table).entries, port)) && table.entries[i].port == port
    {
      i := Find(port);
      if i == |table.entries| {
        assert held(port) == 0;
        Appended(table.entries, Blank(port), requested, held, upnpReady);
        table := table.(entries := table.entries + [Blank(port)]);
      }
    }

    method Fix(i: nat, backends: Trio<bool>)
      requires InOrder() && i < |table.entries| && Any(backends)
      modifies `table
      ensures table == old(table).(entries := old(table).entries[i := Fixed(old(table).entries[i], backends)])
      ensures InOrder()
    {
      var e := Fixed(table.entries[i], backends);
      EntryChanged(table.entries, i, e, requested, held, held, upnpReady);
      table := table.(entries := table.entries[i := e]);
    }

    /** Lists the port of a configured socket for the protocols it is to use. */
    method AddFixed(port: nat, backends: Trio<bool>)
      requires Valid() && Any(backends)
      modifies `table, `uses
      ensures Valid() && table == if port == 0 then old(table) else FixedFor(old(table), port, backends)
    {
      if port == 0 {
        return;
      }
      FixedIsTidy(table, port, backends);
      var i := FindOrAdd(port);
      Fix(i, backends);
      Recompute();
    }

    method Bump(i: nat, sock: Socket)
      requires InOrder() && i < |table.entries| && table.entries[i].port == sock.port
      requires sock !in sockets && sock.mappable && Any(requested)
      modifies `table, `sockets, `held
      ensures table == old(table).(entries := old(table).entries[i := Bumped(old(table).entries[i], requested)])
      ensures InOrder() && sockets == old(sockets) + {sock} && held == Raised(old(held), sock.port)
    {
      ReferenceAdded(table.entries, i, requested, held, upnpReady);
      table := table.(entries := table.entries[i := Bumped(table.entries[i], requested)]);
      sockets, held := sockets + {sock}, Raised(held, sock.port);
    }

    /** Adds a reference for each requested protocol to the port's entry. */
    method AddReference(sock: Socket)
      requires Valid() && sock !in sockets && sock.mappable && sock.port > 0 && Any(requested)
      modifies `table, `uses, `sockets, `held
      ensures Valid() && sockets == old(sockets) + {sock} && held == Raised(old(held), sock.port)
      ensures table == Referenced(old(table), sock.port, requested)
    {
      ReferencedIsTidy(table, sock.port, requested);
      var i := FindOrAdd(sock.port);
      Bump(i, sock);
      Recompute();
    }

    method Release(sock: Socket)
      requires Valid()
      modifies `table, `uses, `sockets, `held
      ensures Valid() && sockets == old(sockets) - {sock} && SamePort(old(table), table)
      ensures held == if sock in old(sockets) && sock.mappable then Lowered(old(held), sock.port) else old(held)
      ensures table == ReleasedFrom(old(table), sock, old(sockets), upnpReady)
    {
      if sock !in sockets {
        return;
      }
      if sock.mappable {
        Unreference(sock.port);
      }
      sockets := sockets - {sock};
      Tidied();
    }

    /** The counters of the port go down if it is still listed; its leases go with the last user. */
    method Unreference(port: nat)
      requires InOrder()
      modifies `table, `held
      ensures InOrder() && held == Lowered(old(held), port)
      ensures SamePort(old(table), table) && table == Unreferenced(old(table), port, upnpReady)
    {
      var i := Find(port);
      if i == |table.entries| {
        NothingDropped(table.entries, port, requested, held, upnpReady);
      } else {
        var e := Dropped(table.entries[i]);
        if !e.HasUsers() { e := e.Released(upnpReady); }
        ReferenceDropped(table.entries, i, e, requested, held, upnpReady);
        table := table.(entries := table.entries[i := e]);
      }
      held := Lowered(held, port);
    }

    /** Compacts a list that is otherwise in order. */
    method Tidied()
      requires InOrder()
      modifies `table, `uses
      ensures Valid() && SamePort(old(table), table) && table == Compacted(old(table), 0)
    {
      CompactedLaws(table, 0);
      KeptListOk(table.entries, Compacted(table, 0).entries, requested, held, upnpReady);
      Compact();
    }

    /** Notes what leases an entry has. */
    method SetMapped(i: nat, mapped: Trio<bool>)
      requires Valid() && i < |table.entries| && (mapped.upnp ==> upnpReady)
      modifies `table
      ensures Valid() && table == WithMapped(old(table), i, mapped)
    {
      MappedInOrder(table, i, mapped, requested, held, upnpReady);
      table := WithMapped(table, i, mapped);
    }

    /**
     * A response names its port; `fits` tells whether its nonce is that of the entry. If it answers the pending
     * request, PCP goes on with the next entry that uses it, even if this one has no users any more and is deleted.
     */
    method HandlePcpResponse(port: nat, fits: bool, outcome: Outcome, sent: bool) returns (taken: bool)
      requires Valid()
      modifies `table, `uses, `retries
      ensures Valid() && (taken <==> fits && Listed(old(table).entries, port))
      ensures taken ==> IndexOf(old(table).entries, port) < |old(table).entries|
      ensures taken && Awaits(old(table), port) ==>
        FollowsPort(old(table).entries, IndexOf(old(table).entries, port), table, sent)
      ensures table ==
        if !taken then old(table) else AfterResponse(old(table), IndexOf(old(table).entries, port), outcome, sent)
      ensures retries == if taken && Awaits(old(table), port) then 0 else old(retries)
    {
      var i := Find(port);
      taken := fits && i < |table.entries|;
      if !taken {
        return;
      }
      NoteOutcome(i, outcome);
      if table.pcp == At(i) {
        FollowsUpdated(old(table).entries, table.entries, i);
        Advance(i, AfterOrAt(table.entries, i), sent);
      }
    }

    method NoteOutcome(i: nat, outcome: Outcome)
      requires Valid() && i < |table.entries|
      modifies `table
      ensures Valid() && table == Responded(old(table), i, outcome)
    {
      var e := table.entries[i];
      if outcome.Refused? || (outcome.Granted? && !e.uses.pcp) {
        SetMapped(i, e.mapped.(pcp := false));
      } else if outcome.Granted? {
        SetMapped(i, e.mapped.(pcp := true));
      }
    }

    /** A NAT-PMP response, error or timer; the walk goes on behind the current index. */
    method HandleNatpmp(event: NatpmpEvent, sent: bool)
      requires Valid()
      modifies `table, `uses, `retries
      ensures Valid() && SamePort(old(table), table)
      ensures table == AfterNatpmp(old(table), event, sent) && retries == old(retries)
    {
      if table.natpmp.Idle? {
        Request(0, Natpmp, sent);
      } else if event.Failure? {
        Retry(Natpmp);
      } else if event.Success? {
        TakeNatpmp(sent);
      }
    }

    /** The pending NAT-PMP request was answered. */
    method TakeNatpmp(sent: bool)
      requires Valid() && table.natpmp.At?
      modifies `table, `uses, `retries
      ensures Valid() && SamePort(old(table), table)
      ensures table == Requested(Answered(old(table)), old(table).natpmp.index + 1, Natpmp, sent)
      ensures retries == old(retries)
    {
      var c := table.natpmp.index;
      var e := table.entries[c];
      SetMapped(c, e.mapped.(natpmp := e.uses.natpmp));
      table := table.(natpmp := Idle);
      assert table == Answered(old(table));
      Request(c + 1, Natpmp, sent);
    }

    /** Asks the gateway's UPnP service for the ports that use it; `grants` tells which it grants. */
    method MapUpnp(grants: nat -> bool)
      requires Valid() && upnpReady
      modifies `table
      ensures Valid() && table == WithUpnp(old(table), grants)
    {
      for i := 0 to |table.entries|
        invariant Valid() && table == old(table).(entries := table.entries) && |table.entries| == |old(table).entries|
        invariant forall j :: 0 <= j < i ==> table.entries[j] == UpnpAsked(old(table).entries[j], grants)
        invariant forall j :: i <= j < |table.entries| ==> table.entries[j] == old(table).entries[j]
      {
        var e := table.entries[i];
        if e.uses.upnp && !e.mapped.upnp && grants(e.port) {
          SetMapped(i, e.mapped.(upnp := true));
        }
      }
      assert table.entries == WithUpnp(old(table), grants).entries;
    }

    method Start(b: Backend, up: bool, sent: bool)
      requires Valid()
      modifies `table, `uses, `retries, `natpmpReady, `pcpReady
      ensures Valid()
      ensures table == Started(old(table), b, up || if b.Natpmp? then old(natpmpReady) else old(pcpReady), sent)
      ensures natpmpReady == (old(natpmpReady) || (b.Natpmp? && Starts(old(table), b, up)))
      ensures pcpReady == (old(pcpReady) || (b.Pcp? && Starts(old(table), b, up)))
      ensures retries == if b.Pcp? && Starts(old(table), b, up || old(pcpReady)) then 0 else old(retries)
    {
      var used := if b.Natpmp? then uses.natpmp else uses.pcp;
      if used && CursorOf(table, b).Idle? && (up || if b.Natpmp? then natpmpReady else pcpReady) {
        if b.Natpmp? { natpmpReady := true; } else { pcpReady := true; }
        Request(0, b, sent);
      }
    }

    /** Starts the protocols that are in use. */
    method Activate(o: Outside)
      requires Valid()
      modifies `table, `uses, `retries, `natpmpReady, `pcpReady
      ensures Valid() && table == Activated(old(table), old(Ready()), o)
      ensures Ready() == SetUp(old(table), old(Ready()), o)
      ensures retries ==
        if Starts(BeforePcp(old(table), old(Ready()), o), Pcp, old(pcpReady) || o.pcpUp) then 0 else old(retries)
    {
      Prepare(o);
      Start(Pcp, o.pcpUp, o.pcpSent);
    }

    method Prepare(o: Outside)
      requires Valid()
      modifies `table, `uses, `retries, `natpmpReady, `pcpReady
      ensures Valid() && table == BeforePcp(old(table), old(Ready()), o) && retries == old(retries)
      ensures natpmpReady == (old(natpmpReady) || Starts(old(table), Natpmp, o.natpmpUp)) && pcpReady == old(pcpReady)
    {
      Start(Natpmp, o.natpmpUp, o.natpmpSent);
      if uses.upnp && upnpReady {
        MapUpnp(o.grants);
      }
    }

    method Register(sock: Socket, o: Outside) returns (ok: bool)
      requires Valid()
      modifies `table, `uses, `sockets, `held, `retries, `natpmpReady, `pcpReady
      ensures Valid() && (ok <==> Registers(sock, requested, old(sockets)))
      ensures sockets == old(sockets) + if ok then {sock} else {}
      ensures held == if ok then Raised(old(held), sock.port) else old(held)
      ensures old(table).pcp.At? ==> SamePort(old(table), table)
      ensures Snapshot() == Next(old(Snapshot()), requested, Step.Register(sock, o))
    {
      if sock in sockets || !sock.mappable || !Any(requested) || sock.port == 0 {
        return false;
      }
      ghost var ready := Ready();
      ReferencedKeepsPort(table, sock.port, requested);
      ActivatedKeepsPort(Referenced(table, sock.port, requested), ready, o);
      AddReference(sock);
      Activate(o);
      return true;
    }

    /** The gateway's UPnP service was found. */
    method FoundUpnp(grants: nat -> bool)
      requires Valid()
      modifies `table, `upnpReady
      ensures Valid() && table == WithUpnp(old(table), grants) && upnpReady && SamePort(old(table), table)
    {
      upnpReady := true;
      MapUpnp(grants);
    }

    method Perform(step: Step)
      requires Valid()
      modifies this
      ensures Valid() && Snapshot() == Next(old(Snapshot()), requested, step)
    {
      match step
      case Register(sock, o) => var _ := Register(sock, o);
      case Release(sock) => Release(sock);
      case _ => Handle(step);
    }

    /** What comes from the gateway or a timer. */
    method Handle(step: Step)
      requires Valid() && !step.Register? && !step.Release?
      modifies `table, `uses, `retries, `upnpReady
      ensures Valid() && Snapshot() == Next(old(Snapshot()), requested, step)
    {
      match step
      case PcpResponse(port, fits, outcome, sent) => var _ := HandlePcpResponse(port, fits, outcome, sent);
      case PcpTimeout(sent) => HandlePcpTimeout(sent);
      case NatpmpStep(event, sent) => HandleNatpmp(event, sent);
      case UpnpFound(grants) => FoundUpnp(grants);
    }

    /**
     * Whatever happens, the references of every port are what its counter holds after all registrations and releases,
     * the flags follow them, the ports are distinct, pending requests stand in the list, and nothing is on the list
     * without a reason. The states passed through are those that the steps prescribe.
     */
    method Run(steps: seq<Step>) returns (ghost trace: seq<State>)
      requires Valid()
      modifies this
      ensures Valid() && Record(sockets, held) == RecordAfter(Record(old(sockets), old(held)), requested, steps)
      ensures Traced(trace, requested, steps) && trace[0] == old(Snapshot()) && trace[|steps|] == Snapshot()
    {
      trace := [Snapshot()];
      for n := 0 to |steps|
        invariant Valid() && |trace| == n + 1 && trace[0] == old(Snapshot()) && trace[n] == Snapshot()
        invariant Traced(trace, requested, steps[..n])
      {
        Perform(steps[n]);
        TraceGrows(trace, requested, steps, n, Snapshot());
        trace := trace + [Snapshot()];
      }
      assert steps[..|steps|] == steps;
      TracedRecord(trace, requested, steps, |steps|);
    }

    /**
     * After a run from the start, the references of an entry are the registered sockets on its port exactly if there
     * were never more than 65535 of them since there were last none.
     */
    lemma ReferencesAreSockets(steps: seq<Step>, i: nat)
      requires Valid() && Record(sockets, held) == RecordOf(requested, steps) && i < |table.entries| && Any(requested)
      ensures table.entries[i].refs == RefsFor(requested, UsersOf(sockets, table.entries[i].port))
        <==> !Overdue(History(requested, steps, table.entries[i].port))
    {
      assert EntryOk(table.entries[i], requested, held, upnpReady);
      CounterIsRight(requested, steps, table.entries[i].port);
    }

    /** A registered socket is on the list, unless its port's counter is wrong. */
    lemma RegisteredIsListed(steps: seq<Step>, sock: Socket)
      requires Valid() && Record(sockets, held) == RecordOf(requested, steps) && sock in sockets
      requires !Overdue(History(requested, steps, sock.port))
      ensures Listed(table.entries, sock.port)
    {
      assert sock in set s | s in sockets && s.port == sock.port;
      CounterIsRight(requested, steps, sock.port);
      assert held(sock.port) == UsersOf(sockets, sock.port) > 0;
    }

    method HandlePcpTimeout(sent: bool)
      requires Valid()
      modifies `table, `uses, `retries
      ensures Valid() && (table, retries) == TimedOut(old(table), old(retries), sent)
      ensures old(table).pcp.At? && !old(table).entries[old(table).pcp.index].uses.pcp ==>
        Follows(old(table).entries, old(table).pcp.index, table, sent)
    {
      if table.pcp.Idle? {
        Request(0, Pcp, sent);
        return;
      }
      var c := table.pcp.index;
      if !table.entries[c].uses.pcp {
        Advance(c, c, sent);
      } else if retries >= MAX_RETRIES {
        Retry(Pcp);
      } else {
        retries := retries + 1;
        if !sent { Retry(Pcp); }
      }
    }
  }

  /** PCP's cursor stands on the same port as before. */
  ghost predicate SamePort(t: Table, t': Table) {
    match t.pcp
    case Idle => t'.pcp.Idle?
    case At(c) =>
      && t'.pcp.At? && c < |t.entries| && t'.pcp.index < |t'.entries|
      && t.entries[c].port == t'.entries[t'.pcp.index].port
  }

  /** A reference leaves the ports where they are. */
  lemma ReferencedKeepsPort(t: Table, port: nat, requested: Trio<bool>)
    requires t.InRange()
    ensures Referenced(t, port, requested).InRange() && (t.pcp.At? ==> SamePort(t, Referenced(t, port, requested)))
  {
  }

  lemma StartedKeepsPort(t: Table, ready: bool, sent: bool)
    requires t.InRange()
    ensures Started(t, Natpmp, ready, sent).InRange() && SamePort(t, Started(t, Natpmp, ready, sent))
  {
    if Starts(t, Natpmp, ready) { RequestedLaws(t, 0, Natpmp, sent); }
  }

  /** Starting the protocols leaves a pending PCP request where it is. */
  lemma ActivatedKeepsPort(t: Table, ready: Trio<bool>, o: Outside)
    requires t.InRange()
    ensures t.pcp.At? ==> SamePort(t, Activated(t, ready, o))
  {
    StartedKeepsPort(t, ready.natpmp || o.natpmpUp, o.natpmpSent);
  }

  lemma TraceGrows(trace: seq<State>, requested: Trio<bool>, steps: seq<Step>, n: nat, s: State)
    requires n < |steps| && Traced(trace, requested, steps[..n])
    requires Sound(s, requested) && s == Next(trace[n], requested, steps[n])
    ensures Traced(trace + [s], requested, steps[..n + 1])
  {
    var longer, before := trace + [s], steps[..n + 1];
    forall k | 0 <= k < |before|
      ensures StepAt(longer, requested, before, k)
    {
      if k < n { assert StepAt(trace, requested, steps[..n], k); }
    }
  }

  /** The record does not depend on the list. */
  lemma NextRecord(s: State, requested: Trio<bool>, step: Step)
    requires s.table.InRange()
    ensures Next(s, requested, step).record == Recorded(s.record, requested, step)
  {
  }

  lemma {:induction false} TracedRecord(trace: seq<State>, requested: Trio<bool>, steps: seq<Step>, n: nat)
    requires Traced(trace, requested, steps) && n <= |steps|
    ensures trace[n].record == RecordAfter(trace[0].record, requested, steps[..n])
  {
    if n > 0 {
      TracedRecord(trace, requested, steps, n - 1);
      assert StepAt(trace, requested, steps, n - 1) && steps[..n][..n - 1] == steps[..n - 1];
      NextRecord(trace[n - 1], requested, steps[n - 1]);
    }
  }

  /** NAT-PMP has its answer: the lease is kept if the entry still uses NAT-PMP. */
  function Answered(t: Table): Table
    requires t.InRange() && t.natpmp.At?
  {
    var c := t.natpmp.index;
    WithMapped(t, c, t.entries[c].mapped.(natpmp := t.entries[c].uses.natpmp)).(natpmp := Idle)
  }

  function WithMapped(t: Table, i: nat, mapped: Trio<bool>): Table
    requires i < |t.entries|
  {
    t.(entries := t.entries[i := t.entries[i].(mapped := mapped)])
  }

  lemma {:induction false} UsesUnchanged(s: seq<Entry>, r: seq<Entry>)
    requires |s| == |r| && forall i :: 0 <= i < |s| ==> s[i].uses == r[i].uses
    ensures UsesAny(s) == UsesAny(r)
  {
    if s != [] { UsesUnchanged(s[..|s| - 1], r[..|r| - 1]); }
  }

  /** Leases have no part in what keeps an entry on the list. */
  lemma MappedInOrder(t: Table, i: nat, mapped: Trio<bool>, requested: Trio<bool>, held: nat -> nat, upnpReady: bool)
    requires t.InRange() && t.Tidy() && ListOk(t.entries, requested, held, upnpReady)
    requires i < |t.entries| && (mapped.upnp ==> upnpReady)
    ensures WithMapped(t, i, mapped).Tidy() && ListOk(WithMapped(t, i, mapped).entries, requested, held, upnpReady)
    ensures UsesAny(WithMapped(t, i, mapped).entries) == UsesAny(t.entries)
  {
    var t' := WithMapped(t, i, mapped);
    EntryChanged(t.entries, i, t'.entries[i], requested, held, held, upnpReady);
    UsesUnchanged(t.entries, t'.entries);
    forall j | 0 <= j < |t'.entries|
      ensures t'.Needed(j)
    {
      assert t.Needed(j);
    }
  }

  /** The entries differ in their leases only. */
  ghost predicate SameUse(s: seq<Entry>, r: seq<Entry>) {
    |s| == |r| && forall i :: 0 <= i < |s| ==> s[i].port == r[i].port && s[i].uses == r[i].uses
  }

  lemma {:induction false} NextUserUnchanged(s: seq<Entry>, r: seq<Entry>, i: nat, b: Backend)
    requires SameUse(s, r) && i <= |s|
    ensures NextUser(s, i, b) == NextUser(r, i, b)
    decreases |s| - i
  {
    if i < |s| { NextUserUnchanged(s, r, i + 1, b); }
  }

  /** PCP waits for a response for the port. */
  predicate Awaits(t: Table, port: nat) {
    t.pcp == At(IndexOf(t.entries, port))
  }

  /** Where the walk goes on from the entry at i: behind it if it has users, and at its index if it is about to go. */
  function AfterOrAt(s: seq<Entry>, i: nat): nat
    requires i < |s|
  {
    if s[i].HasUsers() then i + 1 else i
  }

  /** As Follows, but only the port of the next entry is known, not its leases. */
  ghost predicate FollowsPort(before: seq<Entry>, c: nat, t: Table, sent: bool)
    requires c < |before|
  {
    var k := NextUser(before, c + 1, Pcp);
    && (t.pcp.At? <==> k < |before| && sent)
    && (t.pcp.At? ==> t.pcp.index < |t.entries| && t.entries[t.pcp.index].port == before[k].port)
  }

  lemma FollowsUpdated(before: seq<Entry>, updated: seq<Entry>, c: nat)
    requires SameUse(before, updated) && c < |before|
    ensures forall t, sent :: Follows(updated, c, t, sent) ==> FollowsPort(before, c, t, sent)
  {
    NextUserUnchanged(before, updated, c + 1, Pcp);
  }

  /** After the entry at c, PCP goes on with the next entry of the list that uses it, if the request can be sent. */
  ghost predicate Follows(before: seq<Entry>, c: nat, t: Table, sent: bool)
    requires c < |before|
  {
    var k := NextUser(before, c + 1, Pcp);
    && (t.pcp.At? <==> k < |before| && sent)
    && (t.pcp.At? ==> t.pcp.index < |t.entries| && t.entries[t.pcp.index] == before[k])
  }

  // ------------------------------------------------------------- the counters

  /** The record after the steps, from a start without sockets. */
  ghost function RecordOf(requested: Trio<bool>, steps: seq<Step>): Record {
    RecordAfter(Record({}, Uncounted()), requested, steps)
  }

  ghost function Users(requested: Trio<bool>, steps: seq<Step>, port: nat): nat {
    UsersOf(RecordOf(requested, steps).sockets, port)
  }

  /** The number of sockets registered on the port at the start and after each step. */
  ghost function History(requested: Trio<bool>, steps: seq<Step>, port: nat): seq<nat> {
    if steps == [] then [0]
    else History(requested, steps[..|steps| - 1], port) + [Users(requested, steps, port)]
  }

  /** There were once more sockets than can be counted, and never none since. */
  ghost predicate Overdue(users: seq<nat>) {
    exists j :: 0 <= j < |users| && OverdueSince(users, j)
  }

  ghost predicate OverdueSince(users: seq<nat>, j: nat)
    requires j < |users|
  {
    users[j] > REFS_MAX && forall m :: j < m < |users| ==> users[m] > 0
  }

  lemma OverdueNext(users: seq<nat>, n: nat)
    ensures Overdue(users + [n]) <==> n > REFS_MAX || (Overdue(users) && n > 0)
  {
    var r := users + [n];
    if n > REFS_MAX { assert OverdueSince(r, |users|); }
    if Overdue(users) && n > 0 {
      var j :| 0 <= j < |users| && OverdueSince(users, j);
      assert OverdueSince(r, j);
    }
    if Overdue(r) && n <= REFS_MAX {
      var j :| 0 <= j < |r| && OverdueSince(r, j);
      assert r[|users|] > 0;
      assert forall m :: j < m < |users| ==> users[m] == r[m];
      assert OverdueSince(users, j);
    }
  }

  lemma {:induction false} RegisteredAreMappable(requested: Trio<bool>, steps: seq<Step>)
    ensures forall k :: k in RecordOf(requested, steps).sockets ==> k.mappable && Any(requested)
  {
    if steps != [] { RegisteredAreMappable(requested, steps[..|steps| - 1]); }
  }

  /** A port's counter goes up and down with its sockets, as far as it goes. */
  lemma CounterFollows(requested: Trio<bool>, steps: seq<Step>, port: nat)
    requires steps != []
    ensures
      var before, after := RecordOf(requested, steps[..|steps| - 1]), RecordOf(requested, steps);
      var u, n, h := UsersOf(before.sockets, port), UsersOf(after.sockets, port), before.held(port);
      || (n == u && after.held(port) == h)
      || (n == u + 1 && after.held(port) == if h != REFS_MAX then h + 1 else h)
      || (n == u - 1 && after.held(port) == if h > 0 then h - 1 else 0)
  {
    var before, step := RecordOf(requested, steps[..|steps| - 1]), steps[|steps| - 1];
    RegisteredAreMappable(requested, steps[..|steps| - 1]);
    if step.Register? && Registers(step.sock, requested, before.sockets) {
      OneMoreUser(before.sockets, step.sock, port);
    } else if step.Release? && step.sock in before.sockets {
      assert before.sockets - {step.sock} + {step.sock} == before.sockets;
      OneMoreUser(before.sockets - {step.sock}, step.sock, port);
    }
  }

  lemma NobodyYet(port: nat)
    ensures UsersOf({}, port) == 0
  {
    assert (set s: Socket | s in {} && s.port == port) == {};
  }

  /**
   * After any run, a port's counter holds no more than its registered sockets, and it holds their number exactly if
   * that number never went past 65535 since it was last zero.
   */
  lemma {:induction false} CounterIsRight(requested: Trio<bool>, steps: seq<Step>, port: nat)
    ensures RecordOf(requested, steps).held(port) <= Users(requested, steps, port)
    ensures RecordOf(requested, steps).held(port) <= REFS_MAX
    ensures RecordOf(requested, steps).held(port) == Users(requested, steps, port) <==>
      !Overdue(History(requested, steps, port))
  {
    NobodyYet(port);
    if steps != [] {
      CounterIsRight(requested, steps[..|steps| - 1], port);
      CounterFollows(requested, steps, port);
      OverdueNext(History(requested, steps[..|steps| - 1], port), Users(requested, steps, port));
    }
  }

  /** n sockets are registered on the port, one after the other. */
  function Registrations(n: nat, port: nat, o: Outside): seq<Step> {
    if n == 0 then [] else Registrations(n - 1, port, o) + [Register(Socket(n, port, true), o)]
  }

  lemma {:induction false} RegistrationsCount(requested: Trio<bool>, n: nat, port: nat, o: Outside)
    requires Any(requested) && port > 0
    ensures var r := RecordOf(requested, Registrations(n, port, o));
      && (forall k :: k in r.sockets ==> k.id <= n) && UsersOf(r.sockets, port) == n
      && r.held(port) == if n <= REFS_MAX then n else REFS_MAX
  {
    NobodyYet(port);
    if n > 0 {
      RegistrationsCount(requested, n - 1, port, o);
      var steps := Registrations(n, port, o);
      assert steps[..|steps| - 1] == Registrations(n - 1, port, o);
      OneMoreUser(RecordOf(requested, Registrations(n - 1, port, o)).sockets, Socket(n, port, true), port);
    }
  }

  /** With 65536 sockets or more on one port the counter is too small. */
  lemma CounterIsShort(requested: Trio<bool>, n: nat, port: nat, o: Outside)
    requires Any(requested) && port > 0 && n > REFS_MAX
    ensures var steps := Registrations(n, port, o);
      RecordOf(requested, steps).held(port) == REFS_MAX < Users(requested, steps, port) == n
  {
    RegistrationsCount(requested, n, port, o);
  }

  // ------------------------------------------------------------- the limits

  /** A port with n dynamic listeners that use NAT-PMP. */
  function Dynamic(port: nat, n: nat): Entry {
    var none := Trio(false, false, false);
    Entry(port, none, Trio(n, 0, 0), Trio(n > 0, false, false), none)
  }

  const ONLY_NATPMP: Trio<bool> := Trio(true, false, false)

  lemma UsesOne(e: Entry)
    ensures UsesAny([e]) == e.uses
  {
    assert [e][..0] == [];
  }

  lemma UsesTwo(e: Entry, f: Entry)
    ensures UsesAny([e, f]) ==
      Trio(e.uses.natpmp || f.uses.natpmp, e.uses.upnp || f.uses.upnp, e.uses.pcp || f.uses.pcp)
  {
    assert [e, f][..1] == [e];
    UsesOne(e);
  }

  lemma FirstRequested()
    ensures Requested(Table([Dynamic(1, 1)], Idle, Idle), 0, Natpmp, true) == Table([Dynamic(1, 1)], At(0), Idle)
  {
    var t := Table([Dynamic(1, 1)], Idle, Idle);
    NothingToCompact(t, 0);
    assert NextUser(t.entries, 0, Natpmp) == 0;
  }

  /** Where only NAT-PMP is used, nothing else is started. */
  lemma ActivatesNatpmp(t: Table, t1: Table, ready: Trio<bool>, o: Outside)
    requires t1 == Started(t, Natpmp, ready.natpmp || o.natpmpUp, o.natpmpSent)
    requires !ready.upnp && !UsesAny(t1.entries).pcp
    ensures Activated(t, ready, o) == t1
  {
  }

  lemma FirstReferenced()
    ensures Referenced(Table([], Idle, Idle), 1, ONLY_NATPMP) == Table([Dynamic(1, 1)], Idle, Idle)
  {
  }

  lemma FirstStarted(ready: bool)
    requires ready
    ensures Started(Table([Dynamic(1, 1)], Idle, Idle), Natpmp, ready, true) == Table([Dynamic(1, 1)], At(0), Idle)
  {
    UsesOne(Dynamic(1, 1));
    FirstRequested();
  }

  lemma FirstRegistered(ready: Trio<bool>, o: Outside)
    requires o.natpmpUp && o.natpmpSent && !ready.upnp
    ensures Activated(Referenced(Table([], Idle, Idle), 1, ONLY_NATPMP), ready, o) ==
      Table([Dynamic(1, 1)], At(0), Idle)
  {
    FirstReferenced();
    FirstStarted(ready.natpmp || o.natpmpUp);
    UsesOne(Dynamic(1, 1));
    ActivatesNatpmp(Table([Dynamic(1, 1)], Idle, Idle), Table([Dynamic(1, 1)], At(0), Idle), ready, o);
  }

  lemma SecondReferenced()
    ensures Referenced(Table([Dynamic(1, 1)], At(0), Idle), 2, ONLY_NATPMP) ==
      Table([Dynamic(1, 1), Dynamic(2, 1)], At(0), Idle)
  {
    assert IndexOf([Dynamic(1, 1)], 2) == 1;
  }

  lemma SecondRegistered(ready: Trio<bool>, o: Outside)
    requires !ready.upnp
    ensures Activated(Referenced(Table([Dynamic(1, 1)], At(0), Idle), 2, ONLY_NATPMP), ready, o)
      == Table([Dynamic(1, 1), Dynamic(2, 1)], At(0), Idle)
  {
    SecondReferenced();
    UsesTwo(Dynamic(1, 1), Dynamic(2, 1));
    var t := Table([Dynamic(1, 1), Dynamic(2, 1)], At(0), Idle);
    ActivatesNatpmp(t, t, ready, o);
  }

  lemma FirstReleased(upnpReady: bool)
    ensures Compacted(Unreferenced(Table([Dynamic(1, 1), Dynamic(2, 1)], At(0), Idle), 1, upnpReady), 0)
      == Table([Dynamic(1, 0), Dynamic(2, 1)], At(0), Idle)
  {
    var t := Table([Dynamic(1, 1), Dynamic(2, 1)], At(0), Idle);
    var t' := Table([Dynamic(1, 0), Dynamic(2, 1)], At(0), Idle);
    assert IndexOf(t.entries, 1) == 0;
    assert Unreferenced(t, 1, upnpReady) == t';
    assert t'.Needed(0) && t'.Needed(1);
    NothingToCompact(t', 0);
  }

  lemma SecondSkipped()
    ensures Requested(Answered(Table([Dynamic(1, 0), Dynamic(2, 1)], At(0), Idle)), 1, Natpmp, true) ==
      Table([Dynamic(2, 1)], Idle, Idle)
  {
    var t := Table([Dynamic(1, 0), Dynamic(2, 1)], Idle, Idle);
    assert Answered(Table([Dynamic(1, 0), Dynamic(2, 1)], At(0), Idle)) == t;
    CompactOne(t, 0);
    assert Delete(t, 0) == Table([Dynamic(2, 1)], Idle, Idle);
    assert NextUser([Dynamic(2, 1)], 1, Natpmp) == 1;
  }

  /** One listener is registered from the start, and NAT-PMP asks for its port. */
  method RegisterFirst(first: Socket, o: Outside) returns (m: Mapping)
    requires first.port == 1 && first.mappable && o.natpmpUp && o.natpmpSent
    ensures fresh(m) && m.Valid() && m.sockets == {first} && m.requested == ONLY_NATPMP && !m.upnpReady
    ensures m.table == Table([Dynamic(1, 1)], At(0), Idle)
  {
    m := new Mapping(ONLY_NATPMP);
    FirstRegistered(m.Ready(), o);
    var ok := m.Register(first, o);
  }

  method RegisterSecond(m: Mapping, first: Socket, second: Socket, o: Outside)
    requires m.Valid() && m.sockets == {first} && m.requested == ONLY_NATPMP && !m.upnpReady
    requires m.table == Table([Dynamic(1, 1)], At(0), Idle) && first != second && second.port == 2 && second.mappable
    modifies m
    ensures m.Valid() && m.sockets == {first, second} && m.table == Table([Dynamic(1, 1), Dynamic(2, 1)], At(0), Idle)
  {
    SecondRegistered(m.Ready(), o);
    var ok := m.Register(second, o);
  }

  /**
    NAT-PMP does skip entries, from a start with nothing listed: two listeners are registered, the first is released
    while the request for its port is pending, and when that is answered its entry goes. The second port, which
    still uses NAT-PMP, is on the list without a lease and without a request for it.
  */
  method NatpmpSkips(first: Socket, second: Socket, o: Outside) returns (m: Mapping)
    requires first.port == 1 && second.port == 2 && first.mappable && second.mappable && o.natpmpUp && o.natpmpSent
    ensures m.Valid() && m.sockets == {second} && m.table == Table([Dynamic(2, 1)], Idle, Idle)
    ensures m.table.entries[0].uses.natpmp && !m.table.entries[0].mapped.natpmp
  {
    m := RegisterFirst(first, o);
    RegisterSecond(m, first, second, o);
    ReleaseFirst(m, first, second);
    SecondSkipped();
    m.HandleNatpmp(Success, true);
  }

  method ReleaseFirst(m: Mapping, first: Socket, second: Socket)
    requires m.Valid() && m.sockets == {first, second} && first.port == 1 && second.port == 2 && first.mappable
    requires m.table == Table([Dynamic(1, 1), Dynamic(2, 1)], At(0), Idle)
    modifies m
    ensures m.Valid() && m.sockets == {second} && m.table == Table([Dynamic(1, 0), Dynamic(2, 1)], At(0), Idle)
  {
    FirstReleased(m.upnpReady);
    m.Release(first);
  }
}
