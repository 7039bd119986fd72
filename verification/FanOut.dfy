/**
 * Relaying an address-resolution frame to a bounded number of peers (src/send.c): a first
 * pass selects the destinations round robin, a second pass sends to them, and a cursor
 * remembers where the next frame starts.
 */
module FanOut {
  import opened Basics

  type Peer = nat
  type Filter = Peer -> bool

  // ------------------------------------------------------------- a lap around the peers

  /** The list of peers as seen from a starting index. */
  function Lap(peers: seq<Peer>, start: nat): (lap: seq<Peer>)
    requires start <= |peers|
    ensures |lap| == |peers|
  {
    peers[start..] + peers[..start]
  }

  /** The index i places after start, on a circle of n. */
  function Around(n: nat, start: nat, i: nat): (j: nat)
    requires start < n && i <= n
    ensures j < n
  {
    if start + i < n then start + i else start + i - n
  }

  lemma AroundIsRemainder(n: nat, start: nat, i: nat)
    requires start < n && i <= n
    ensures (start + i) % n == Around(n, start, i)
  {
    if start + i < n { Divided(n, 0, start + i); } else { Divided(n, 1, start + i - n); }
  }

  lemma Divided(n: nat, q: nat, r: nat)
    requires r < n
    ensures (q * n + r) % n == r
  {
    var x := q * n + r;
    var d := q - x / n;
    assert d * n == x % n - r;
    assert d >= 1 ==> d * n >= n;
    assert d <= -1 ==> d * n <= -1 * n;
  }

  /** How many of the first len peers of the lap are eligible. */
  function Count(may: Filter, lap: seq<Peer>, len: nat): nat
    requires len <= |lap|
  {
    if len == 0 then 0 else Count(may, lap, len - 1) + if may(lap[len - 1]) then 1 else 0
  }

  /** One past the last destination among the first len peers, or 0: the first `limit` eligible ones are selected. */
  function End(may: Filter, lap: seq<Peer>, len: nat, limit: nat): (end: nat)
    requires len <= |lap|
    ensures end <= len && (end > 0 ==> may(lap[end - 1]))
  {
    if len == 0 then 0
    else if may(lap[len - 1]) && Count(may, lap, len - 1) < limit then len
    else End(may, lap, len - 1, limit)
  }

  lemma {:induction false} CountGrows(may: Filter, lap: seq<Peer>, m: nat, len: nat)
    requires m <= len <= |lap|
    ensures Count(may, lap, m) <= Count(may, lap, len)
  {
    if m < len { CountGrows(may, lap, m, len - 1); }
  }

  /** Exactly min(limit, eligible) peers are selected. */
  lemma {:induction false} EndCounts(may: Filter, lap: seq<Peer>, len: nat, limit: nat)
    requires len <= |lap|
    ensures Count(may, lap, End(may, lap, len, limit)) == Min(limit, Count(may, lap, len))
  {
    if len > 0 { EndCounts(may, lap, len - 1, limit); }
  }

  /** Once the limit is reached, looking further selects nothing more. */
  lemma {:induction false} EndStays(may: Filter, lap: seq<Peer>, m: nat, len: nat, limit: nat)
    requires m <= len <= |lap| && Count(may, lap, m) >= limit
    ensures End(may, lap, len, limit) == End(may, lap, m, limit)
  {
    if m < len {
      EndStays(may, lap, m, len - 1, limit);
      CountGrows(may, lap, m, len - 1);
    }
  }

  /** If the limit is not exceeded, no eligible peer is left out. */
  lemma {:induction false} NoneLeftOut(may: Filter, lap: seq<Peer>, len: nat, limit: nat, i: nat)
    requires i < len <= |lap| && may(lap[i]) && Count(may, lap, len) <= limit
    ensures i < End(may, lap, len, limit)
  {
    if i < len - 1 && !(may(lap[len - 1]) && Count(may, lap, len - 1) < limit) {
      NoneLeftOut(may, lap, len - 1, limit, i);
    }
  }

  lemma {:induction false} SomeEligible(may: Filter, lap: seq<Peer>, len: nat)
    requires len <= |lap|
    ensures Count(may, lap, len) > 0 <==> exists i :: 0 <= i < len && may(lap[i])
  {
    if len > 0 { SomeEligible(may, lap, len - 1); }
  }

  /** Before the last destination the limit is not reached. */
  lemma BelowLimit(may: Filter, lap: seq<Peer>, len: nat, limit: nat, i: nat)
    requires len <= |lap| && i < End(may, lap, len, limit) - 1
    ensures Count(may, lap, i + 1) < limit
  {
    EndCounts(may, lap, len, limit);
    CountGrows(may, lap, i + 1, End(may, lap, len, limit) - 1);
  }

  // ------------------------------------------------------------- one call

  /** A frame handed to the protocol for a peer: the buffer itself or a copy of it. */
  datatype Sent = Sent(peer: Peer, copy: bool)

  /** Copies for the eligible ones of the first len peers, in order. */
  function Copies(may: Filter, lap: seq<Peer>, len: nat): (r: seq<Sent>)
    requires len <= |lap|
    ensures |r| == Count(may, lap, len)
  {
    if len == 0 then []
    else Copies(may, lap, len - 1) + if may(lap[len - 1]) then [Sent(lap[len - 1], true)] else []
  }

  lemma CopiesStep(may: Filter, lap: seq<Peer>, i: nat)
    requires i < |lap|
    ensures Count(may, lap, i + 1) == Count(may, lap, i) + if may(lap[i]) then 1 else 0
    ensures Copies(may, lap, i + 1) == Copies(may, lap, i) + if may(lap[i]) then [Sent(lap[i], true)] else []
  {
  }

  /** The first i peers of the lap have been sent copies, as far as they are eligible. */
  ghost predicate CopiedTo(may: Filter, lap: seq<Peer>, i: nat, before: seq<Sent>, sent: seq<Sent>, selected: nat)
    requires i <= |lap|
  {
    selected == Count(may, lap, i) && sent == before + Copies(may, lap, i)
  }

  /** The next peer gets a copy, or the buffer itself if it is the last. */
  lemma CopiedNext(may: Filter, lap: seq<Peer>, i: nat, before: seq<Sent>, sent: seq<Sent>, selected: nat)
    requires i < |lap| && CopiedTo(may, lap, i, before, sent, selected)
    ensures may(lap[i]) ==> CopiedTo(may, lap, i + 1, before, sent + [Sent(lap[i], true)], selected + 1)
    ensures !may(lap[i]) ==> CopiedTo(may, lap, i + 1, before, sent + [], selected)
    ensures sent + [Sent(lap[i], false)] == before + Sends(may, lap, i + 1) && selected + 1 == |Sends(may, lap, i + 1)|
  {
    CopiesStep(may, lap, i);
    assert sent + [] == sent;
  }

  /** What a call sends: copies to the selected peers, but the buffer itself to the last of them. */
  function Sends(may: Filter, lap: seq<Peer>, end: nat): (r: seq<Sent>)
    requires end <= |lap|
  {
    if end == 0 then [] else Copies(may, lap, end - 1) + [Sent(lap[end - 1], false)]
  }

  lemma LapDistinct(peers: seq<Peer>, start: nat)
    requires start <= |peers| && Distinct(peers)
    ensures Distinct(Lap(peers, start))
  {
  }

  lemma LapHas(peers: seq<Peer>, start: nat, p: Peer)
    requires start <= |peers|
    ensures p in Lap(peers, start) <==> p in peers
  {
    assert peers == peers[..start] + peers[start..];
  }

  /** k times x, as k additions. */
  function Times(k: nat, x: nat): nat {
    if k == 0 then 0 else Times(k - 1, x) + x
  }

  lemma {:induction false} TimesIsProduct(k: nat, x: nat)
    ensures Times(k, x) == k * x
  {
    if k > 0 { TimesIsProduct(k - 1, x); }
  }

  /** How far a call that starts at an index gets. */
  function Reach(may: Filter, peers: seq<Peer>, limit: nat, start: nat): (end: nat)
    requires start <= |peers|
    ensures end <= |peers|
  {
    End(may, Lap(peers, start), |peers|, limit)
  }

  /** What a call sends that starts at an index. */
  function SendsFrom(may: Filter, peers: seq<Peer>, limit: nat, start: nat): seq<Sent>
    requires start <= |peers|
  {
    Sends(may, Lap(peers, start), Reach(may, peers, limit, start))
  }

  /** `at` is the place on the lap of the peer that message `i` goes to. */
  ghost predicate GoesTo(may: Filter, lap: seq<Peer>, r: seq<Sent>, i: nat, at: nat) {
    i < |r| && at < |lap| && may(lap[at]) && r[i].peer == lap[at] && Count(may, lap, at) == i
  }

  /** Message `i` goes to the eligible peer that has `i` eligible ones before it on the lap. */
  lemma {:induction false} CopiesFrom(may: Filter, lap: seq<Peer>, len: nat, i: nat) returns (at: nat)
    requires len <= |lap| && i < Count(may, lap, len)
    ensures at < len && GoesTo(may, lap, Copies(may, lap, len), i, at) && Copies(may, lap, len)[i].copy
  {
    if i < Count(may, lap, len - 1) {
      at := CopiesFrom(may, lap, len - 1, i);
    } else {
      at := len - 1;
    }
  }

  /** A call sends min(limit, eligible) messages. */
  lemma SendsCount(may: Filter, peers: seq<Peer>, limit: nat, start: nat)
    requires start <= |peers|
    ensures |SendsFrom(may, peers, limit, start)| == Min(limit, Count(may, Lap(peers, start), |peers|))
  {
    EndCounts(may, Lap(peers, start), |peers|, limit);
  }

  /**
   * They go to the first eligible peers from the start on, in their order, and all of them are copies but the last,
   * which consumes the buffer.
   */
  lemma SendsInOrder(may: Filter, peers: seq<Peer>, limit: nat, start: nat, i: nat) returns (at: nat)
    requires start <= |peers| && i < |SendsFrom(may, peers, limit, start)|
    ensures var r := SendsFrom(may, peers, limit, start);
      GoesTo(may, Lap(peers, start), r, i, at) && (r[i].copy <==> i < |r| - 1)
  {
    var lap, end := Lap(peers, start), Reach(may, peers, limit, start);
    if i < Count(may, lap, end - 1) {
      at := CopiesFrom(may, lap, end - 1, i);
    } else {
      at := end - 1;
    }
  }

  /** The i-th peer of the lap stands i places after the start in the list. */
  ghost predicate OnLap(peers: seq<Peer>, start: nat, lap: seq<Peer>, i: nat) {
    start < |peers| == |lap| && (i < |lap| ==> lap[i] == peers[Around(|peers|, start, i)])
  }

  class Relay {
    var peers: seq<Peer>
    var limit: nat
    var cursor: nat
    var attempts: nat
    var packets: nat
    var bytes: nat
    var sent: seq<Sent>

    method PeerAt(start: nat, i: nat, ghost lap: seq<Peer>) returns (index: nat, dest: Peer)
      requires OnLap(peers, start, lap, i) && i < |peers|
      ensures index == Around(|peers|, start, i) && dest == lap[i]
    {
      AroundIsRemainder(|peers|, start, i);
      index := (start + i) % |peers|;
      dest := peers[index];
    }

    /** The first pass: the last destination and its index. */
    method Select(may: Filter, start: nat, ghost lap: seq<Peer>) returns (found: bool, last: Peer, lastIndex: nat)
      requires forall i {:trigger OnLap(peers, start, lap, i)} :: OnLap(peers, start, lap, i)
      ensures start < |peers| == |lap|
      ensures found <==> End(may, lap, |lap|, limit) > 0
      ensures found ==> last == lap[End(may, lap, |lap|, limit) - 1]
      ensures found ==> lastIndex == Around(|peers|, start, End(may, lap, |lap|, limit) - 1)
    {
      assert OnLap(peers, start, lap, 0);
      var selected, i := 0, 0;
      found, last, lastIndex := false, 0, start;
      while i < |peers| && selected < limit
        invariant 0 <= i <= |peers| && selected == Count(may, lap, i) <= limit
        invariant found <==> End(may, lap, i, limit) > 0
        invariant found ==> last == lap[End(may, lap, i, limit) - 1]
        invariant found ==> lastIndex == Around(|peers|, start, End(may, lap, i, limit) - 1)
      {
        assert OnLap(peers, start, lap, i);
        var index, dest := PeerAt(start, i, lap);
        i := i + 1;
        if may(dest) {
          assert End(may, lap, i, limit) == i;
          found, last, lastIndex := true, dest, index;
          selected := selected + 1;
        } else {
          assert End(may, lap, i, limit) == End(may, lap, i - 1, limit);
        }
      }
      if i < |peers| {
        EndStays(may, lap, i, |peers|, limit);
      }
    }

    /**
     * The second pass. It stops at the last destination; reaching the limit before it, or the end without
     * it, would be the bugs the daemon exits on.
     */
    method Deliver(may: Filter, start: nat, last: Peer, length: nat)
      requires start < |peers| && Distinct(peers)
      requires Reach(may, peers, limit, start) > 0 && last == Lap(peers, start)[Reach(may, peers, limit, start) - 1]
      modifies `packets, `bytes, `sent
      ensures sent == old(sent) + SendsFrom(may, peers, limit, start)
      ensures packets == old(packets) + |SendsFrom(may, peers, limit, start)|
      ensures bytes == old(bytes) + Times(|SendsFrom(may, peers, limit, start)|, length)
    {
      LapDistinct(peers, start);
      DeliverTo(may, start, last, length, Lap(peers, start), Reach(may, peers, limit, start));
    }

    method DeliverTo(may: Filter, start: nat, last: Peer, length: nat, ghost lap: seq<Peer>, ghost end: nat)
      requires forall i {:trigger OnLap(peers, start, lap, i)} :: OnLap(peers, start, lap, i)
      requires Distinct(lap)
      requires 0 < end == End(may, lap, |lap|, limit) && last == lap[end - 1]
      modifies `packets, `bytes, `sent
      ensures sent == old(sent) + Sends(may, lap, end)
      ensures packets == old(packets) + |Sends(may, lap, end)|
      ensures bytes == old(bytes) + Times(|Sends(may, lap, end)|, length)
    {
      var selected, i := 0, 0;
      while true
        invariant 0 <= i < end && CopiedTo(may, lap, i, old(sent), sent, selected)
        invariant packets == old(packets) + selected && bytes == old(bytes) + Times(selected, length)
        decreases end - i
      {
        assert lap[i] == last ==> i == end - 1;
        CopiedNext(may, lap, i, old(sent), sent, selected);
        assert OnLap(peers, start, lap, i);
        var chosen, stop := Visit(may, start, i, last, length, lap);
        if chosen {
          selected := selected + 1;
        }
        if stop {
          return;
        }
        if chosen {
          BelowLimit(may, lap, |lap|, limit, i);
          assert selected < limit;
        }
        i := i + 1;
      }
    }

    /** Sends to one peer of the lap if it is eligible, and stops if it is the last destination. */
    method Visit(may: Filter, start: nat, i: nat, last: Peer, length: nat, ghost lap: seq<Peer>)
      returns (chosen: bool, stop: bool)
      requires OnLap(peers, start, lap, i) && i < |peers|
      modifies `packets, `bytes, `sent
      ensures var dest := lap[i];
        && chosen == may(dest) && stop == (may(dest) && dest == last)
        && sent == old(sent) + (if chosen then [Sent(dest, !stop)] else [])
        && packets == old(packets) + (if chosen then 1 else 0)
        && bytes == old(bytes) + (if chosen then length else 0)
    {
      var index, dest := PeerAt(start, i, lap);
      chosen := may(dest);
      stop := chosen && dest == last;
      if chosen {
        Send(Sent(dest, !stop), length);
      }
    }

    /** Hands a frame to the protocol and counts it. */
    method Send(s: Sent, length: nat)
      modifies `packets, `bytes, `sent
      ensures sent == old(sent) + [s] && packets == old(packets) + 1 && bytes == old(bytes) + length
    {
      packets := packets + 1;
      bytes := bytes + length;
      sent := sent + [s];
    }

    method Resolve(may: Filter, group: bool, resolution: bool, length: nat) returns (done: bool)
      requires Distinct(peers)
      modifies `cursor, `attempts, `packets, `bytes, `sent
      ensures done <==> group && resolution && limit > 0 && exists p :: p in peers && may(p)
      ensures !done ==> sent == old(sent) && cursor == old(cursor)
      ensures !done ==> attempts == old(attempts) && packets == old(packets) && bytes == old(bytes)
      ensures done ==>
        |peers| > 0 &&
        var start := old(cursor) % |peers|;
        var more := SendsFrom(may, peers, limit, start);
        && cursor == Around(|peers|, start, Reach(may, peers, limit, start)) && attempts == old(attempts) + 1
        && sent == old(sent) + more && packets == old(packets) + |more| && bytes == old(bytes) + Times(|more|, length)
    {
      if !group || !resolution || |peers| == 0 || limit == 0 {
        return false;
      }
      var start := cursor % |peers|;
      var found, last, lastIndex := Select(may, start, Lap(peers, start));
      SelectsSome(may, peers, limit, start);
      if !found {
        return false;
      }
      cursor := Wrapped(start, lastIndex, Reach(may, peers, limit, start));
      attempts := attempts + 1;
      Deliver(may, start, last, length);
      return true;
    }

    /** A frame to relay; `start` is where the call starts. */
    method ResolveFrom(may: Filter, length: nat, ghost start: nat) returns (ghost next: nat)
      requires Distinct(peers) && |peers| > 0 && limit > 0 && start == cursor % |peers|
      modifies `cursor, `attempts, `packets, `bytes, `sent
      ensures next == cursor % |peers| == Around(|peers|, start, Reach(may, peers, limit, start))
      ensures sent == old(sent) + SendsFrom(may, peers, limit, start)
    {
      SelectsSome(may, peers, limit, start);
      var done := Resolve(may, true, true, length);
      next := Around(|peers|, start, Reach(may, peers, limit, start));
      if done { AroundIsRemainder(|peers|, next, 0); }
    }

    /**
     * Frames that are relayed one after the other. While the peers and their eligibility stay the same, everybody
     * eligible gets one of them if there are enough, wherever the cursor stands.
     */
    method ResolveAll(may: Filter, lengths: seq<nat>)
      requires Distinct(peers) && limit > 0
      requires peers != [] ==> |lengths| * limit >= Count(may, Lap(peers, cursor % |peers|), |peers|)
      modifies `cursor, `attempts, `packets, `bytes, `sent
      ensures old(sent) <= sent
      ensures forall p :: p in peers && may(p) ==> IsSent(sent[|old(sent)|..], p)
    {
      if |peers| == 0 {
        return;
      }
      ghost var start := cursor % |peers|;
      RowServes(may, peers, limit, start, |lengths|);
      ResolveRow(may, lengths, start);
      assert sent[|old(sent)|..] == InRow(may, peers, limit, start, |lengths|);
    }

    method ResolveRow(may: Filter, lengths: seq<nat>, ghost start: nat)
      requires Distinct(peers) && |peers| > 0 && limit > 0 && start == cursor % |peers|
      modifies `cursor, `attempts, `packets, `bytes, `sent
      ensures sent == old(sent) + InRow(may, peers, limit, start, |lengths|)
    {
      ghost var s, row := start, old(sent);
      for n := 0 to |lengths|
        invariant s == cursor % |peers| && RowTo(may, peers, limit, start, n, old(sent), s, row) && sent == row
      {
        RowGoesOn(may, peers, limit, start, n, old(sent), s, row);
        row := row + SendsFrom(may, peers, limit, s);
        s := ResolveFrom(may, lengths[n], s);
      }
    }

    method Wrapped(start: nat, lastIndex: nat, ghost end: nat) returns (index: nat)
      requires start < |peers| && 0 < end <= |peers| && lastIndex == Around(|peers|, start, end - 1)
      ensures index == Around(|peers|, start, end)
    {
      AroundIsRemainder(|peers|, lastIndex, 1);
      index := (lastIndex + 1) % |peers|;
    }
  }

  /** A call finds somebody exactly if somebody is eligible. */
  lemma SelectsSome(may: Filter, peers: seq<Peer>, limit: nat, start: nat)
    requires start < |peers| && limit > 0
    ensures Reach(may, peers, limit, start) > 0 <==> exists p :: p in peers && may(p)
  {
    var lap := Lap(peers, start);
    EndCounts(may, lap, |peers|, limit);
    SomeEligible(may, lap, |peers|);
    if i :| 0 <= i < |lap| && may(lap[i]) {
      LapHas(peers, start, lap[i]);
    }
    forall p | p in peers && may(p)
      ensures exists i :: 0 <= i < |lap| && may(lap[i])
    {
      LapHas(peers, start, p);
    }
  }

  // ------------------------------------------------------------- calls in a row

  /** Where the call after n others starts, while the peers and their eligibility stay the same. */
  function StartAfter(may: Filter, peers: seq<Peer>, limit: nat, start: nat, n: nat): (s: nat)
    requires start < |peers|
    ensures s < |peers|
  {
    if n == 0 then start
    else
      var s := StartAfter(may, peers, limit, start, n - 1);
      Around(|peers|, s, Reach(may, peers, limit, s))
  }

  /** A call that starts at the index sends to the peer. */
  ghost predicate Serves(may: Filter, peers: seq<Peer>, limit: nat, start: nat, p: Peer)
    requires start < |peers|
  {
    IsSent(SendsFrom(may, peers, limit, start), p)
  }

  ghost predicate IsSent(more: seq<Sent>, p: Peer) {
    exists s :: s in more && s.peer == p
  }

  /** What n calls in a row send. */
  function InRow(may: Filter, peers: seq<Peer>, limit: nat, start: nat, n: nat): seq<Sent>
    requires start < |peers|
  {
    if n == 0 then []
    else
      var s := StartAfter(may, peers, limit, start, n - 1);
      InRow(may, peers, limit, start, n - 1) + SendsFrom(may, peers, limit, s)
  }

  /** After n calls the next one starts at s, and `row` has been sent in all. */
  ghost predicate RowTo(may: Filter, peers: seq<Peer>, limit: nat, start: nat, n: nat, before: seq<Sent>, s: nat,
      row: seq<Sent>)
    requires start < |peers|
  {
    s == StartAfter(may, peers, limit, start, n) && row == before + InRow(may, peers, limit, start, n)
  }

  lemma RowGoesOn(may: Filter, peers: seq<Peer>, limit: nat, start: nat, n: nat, before: seq<Sent>, s: nat,
      row: seq<Sent>)
    requires start < |peers| && RowTo(may, peers, limit, start, n, before, s, row)
    ensures
      var next := Around(|peers|, s, Reach(may, peers, limit, s));
      RowTo(may, peers, limit, start, n + 1, before, next, row + SendsFrom(may, peers, limit, s))
  {
  }

  lemma InRowLast(may: Filter, peers: seq<Peer>, limit: nat, start: nat, m: nat, p: Peer)
    requires start < |peers| && ServedBy(may, peers, limit, start, m, p)
    ensures IsSent(InRow(may, peers, limit, start, m + 1), p)
  {
    var s := StartAfter(may, peers, limit, start, m);
    assert IsSent(SendsFrom(may, peers, limit, s), p);
    SentIn(InRow(may, peers, limit, start, m), SendsFrom(may, peers, limit, s), p);
  }

  /** What is sent stays sent. */
  type Row = nat -> seq<Sent>

  ghost predicate Grows(row: Row, k: nat) {
    row(k) <= row(k + 1)
  }

  lemma {:induction false} StaysSent(row: Row, m: nat, n: nat, p: Peer)
    requires m <= n && IsSent(row(m), p) && forall k: nat {:trigger Grows(row, k)} :: Grows(row, k)
    ensures IsSent(row(n), p)
  {
    if m < n {
      StaysSent(row, m, n - 1, p);
      assert Grows(row, n - 1);
      var s :| s in row(n - 1) && s.peer == p;
      assert s in row(n);
    }
  }

  lemma InRowHas(may: Filter, peers: seq<Peer>, limit: nat, start: nat, n: nat, m: nat, p: Peer)
    requires start < |peers| && m < n && ServedBy(may, peers, limit, start, m, p)
    ensures IsSent(InRow(may, peers, limit, start, n), p)
  {
    var row: Row := (k: nat) => InRow(may, peers, limit, start, k);
    InRowLast(may, peers, limit, start, m, p);
    StaysSent(row, m + 1, n, p);
  }

  lemma SentIn(before: seq<Sent>, more: seq<Sent>, p: Peer)
    requires IsSent(before, p) || IsSent(more, p)
    ensures IsSent(before + more, p)
  {
    var s :| (s in before || s in more) && s.peer == p;
    assert s in before + more;
  }

  ghost predicate ServedBy(may: Filter, peers: seq<Peer>, limit: nat, start: nat, n: nat, p: Peer)
    requires start < |peers|
  {
    Serves(may, peers, limit, StartAfter(may, peers, limit, start, n), p)
  }

  lemma {:induction false} CopiesHave(may: Filter, lap: seq<Peer>, len: nat, i: nat)
    requires i < len <= |lap| && may(lap[i])
    ensures Sent(lap[i], true) in Copies(may, lap, len)
  {
    if i < len - 1 { CopiesHave(may, lap, len - 1, i); }
  }

  /** Every eligible peer before the end of a call is sent to. */
  lemma ReachedIsServed(may: Filter, peers: seq<Peer>, limit: nat, start: nat, i: nat)
    requires start < |peers| && i < Reach(may, peers, limit, start) && may(Lap(peers, start)[i])
    ensures Serves(may, peers, limit, start, Lap(peers, start)[i])
  {
    var lap, end := Lap(peers, start), Reach(may, peers, limit, start);
    if i < end - 1 {
      CopiesHave(may, lap, end - 1, i);
      assert Sent(lap[i], true) in SendsFrom(may, peers, limit, start);
    } else {
      assert Sent(lap[i], false) in SendsFrom(may, peers, limit, start);
    }
  }

  /** A call that starts i places later sees the rest of the lap first. */
  lemma LaterLap(peers: seq<Peer>, start: nat, i: nat)
    requires start < |peers| && i <= |peers|
    ensures Lap(peers, Around(|peers|, start, i)) == Lap(peers, start)[i..] + Lap(peers, start)[..i]
  {
    if start + i < |peers| { LaterInFront(peers, start, i); } else { LaterBehind(peers, start, start + i - |peers|); }
  }

  lemma LaterInFront(peers: seq<Peer>, start: nat, i: nat)
    requires start + i < |peers|
    ensures Lap(peers, start + i) == Lap(peers, start)[i..] + Lap(peers, start)[..i]
  {
    assert Lap(peers, start)[..i] == peers[start..start + i];
    assert Lap(peers, start)[i..] == peers[start + i..] + peers[..start];
    assert peers[..start] + peers[start..start + i] == peers[..start + i];
  }

  lemma LaterBehind(peers: seq<Peer>, start: nat, j: nat)
    requires j <= start < |peers|
    ensures var i := |peers| - start + j; Lap(peers, j) == Lap(peers, start)[i..] + Lap(peers, start)[..i]
  {
    var i := |peers| - start + j;
    assert Lap(peers, start)[..i] == peers[start..] + peers[..j];
    assert Lap(peers, start)[i..] == peers[j..start];
    assert peers[j..start] + peers[start..] == peers[j..];
  }

  lemma {:induction false} CountRest(may: Filter, lap: seq<Peer>, later: seq<Peer>, done: nat, len: nat)
    requires done + len <= |lap| && len <= |later| && forall i :: 0 <= i < len ==> later[i] == lap[done + i]
    ensures Count(may, lap, done + len) == Count(may, lap, done) + Count(may, later, len)
  {
    if len > 0 { CountRest(may, lap, later, done, len - 1); }
  }

  /**
   * One call further: with the first `done` places of the lap behind it, a call either serves all that is left of
   * the lap, or serves `limit` more peers of it and ends before the end of the lap.
   */
  lemma CallProgress(may: Filter, peers: seq<Peer>, limit: nat, start: nat, done: nat)
    requires start < |peers| && done < |peers| && limit > 0
    ensures var lap := Lap(peers, start); var s := Around(|peers|, start, done); var end := Reach(may, peers, limit, s);
      if Count(may, lap, |lap|) <= Count(may, lap, done) + limit
      then forall i :: done <= i < |lap| && may(lap[i]) ==> i - done < end
      else done + end < |lap| && Count(may, lap, done + end) == Count(may, lap, done) + limit
  {
    var lap, s := Lap(peers, start), Around(|peers|, start, done);
    var later, rest := Lap(peers, s), |lap| - done;
    LaterLap(peers, start, done);
    CountRest(may, lap, later, done, rest);
    if Count(may, later, rest) <= limit {
      forall i | done <= i < |lap| && may(lap[i])
        ensures i - done < Reach(may, peers, limit, s)
      {
        NoneLeftOut(may, later, rest, limit, i - done);
        EndGrows(may, later, rest, |later|, limit);
      }
    } else {
      EndStays(may, later, rest, |later|, limit);
      EndCounts(may, later, rest, limit);
      CountRest(may, lap, later, done, End(may, later, rest, limit));
    }
  }

  lemma {:induction false} EndGrows(may: Filter, lap: seq<Peer>, m: nat, len: nat, limit: nat)
    requires m <= len <= |lap|
    ensures End(may, lap, m, limit) <= End(may, lap, len, limit)
  {
    if m < len { EndGrows(may, lap, m, len - 1, limit); }
  }

  /** Whether the call after n others sends to a peer. */
  type Log = (nat, Peer) -> bool

  /** Within n calls the peer is served. */
  ghost predicate ServedWithin(log: Log, n: nat, p: Peer) {
    exists m: nat :: m < n && log(m, p)
  }

  /** n calls that have not gone round have served n times `limit` peers: all they passed. */
  ghost predicate Underway(may: Filter, lap: seq<Peer>, limit: nat, log: Log, n: nat, done: nat) {
    && done < |lap| && Count(may, lap, done) == Times(n, limit)
    && forall i :: 0 <= i < done && may(lap[i]) ==> ServedWithin(log, n, lap[i])
  }

  ghost predicate AllServed(may: Filter, lap: seq<Peer>, log: Log, n: nat) {
    forall i :: 0 <= i < |lap| && may(lap[i]) ==> ServedWithin(log, n, lap[i])
  }

  /** The call after n others serves the eligible peers in a stretch of the lap. */
  ghost predicate Serving(may: Filter, lap: seq<Peer>, log: Log, n: nat, from: nat, to: nat) {
    forall i :: from <= i < to && i < |lap| && may(lap[i]) ==> log(n, lap[i])
  }

  lemma LastCall(may: Filter, lap: seq<Peer>, limit: nat, log: Log, n: nat, done: nat)
    requires Underway(may, lap, limit, log, n, done) && Serving(may, lap, log, n, done, |lap|)
    ensures AllServed(may, lap, log, n + 1)
  {
    forall i | 0 <= i < |lap| && may(lap[i])
      ensures ServedWithin(log, n + 1, lap[i])
    {
      if i < done {
        var m: nat :| m < n && log(m, lap[i]);
        assert m < n + 1;
      }
    }
  }

  lemma NextCall(may: Filter, lap: seq<Peer>, limit: nat, log: Log, n: nat, done: nat, next: nat)
    requires Underway(may, lap, limit, log, n, done) && Serving(may, lap, log, n, done, next)
    requires done <= next < |lap| && Count(may, lap, next) == Count(may, lap, done) + limit
    ensures Underway(may, lap, limit, log, n + 1, next)
  {
    forall i | 0 <= i < next && may(lap[i])
      ensures ServedWithin(log, n + 1, lap[i])
    {
      if i < done {
        var m: nat :| m < n && log(m, lap[i]);
        assert m < n + 1;
      }
    }
  }

  lemma ServedLater(may: Filter, lap: seq<Peer>, log: Log, n: nat)
    requires AllServed(may, lap, log, n)
    ensures AllServed(may, lap, log, n + 1)
  {
    forall i | 0 <= i < |lap| && may(lap[i])
      ensures ServedWithin(log, n + 1, lap[i])
    {
      var m: nat :| m < n && log(m, lap[i]);
      assert m < n + 1;
    }
  }

  /** The log is that of the calls made one after the other. */
  ghost predicate Logs(log: Log, may: Filter, peers: seq<Peer>, limit: nat, start: nat)
    requires start < |peers|
  {
    forall n, p {:trigger LogsAt(log, may, peers, limit, start, n, p)} :: LogsAt(log, may, peers, limit, start, n, p)
  }

  ghost predicate LogsAt(log: Log, may: Filter, peers: seq<Peer>, limit: nat, start: nat, n: nat, p: Peer)
    requires start < |peers|
  {
    log(n, p) <==> ServedBy(may, peers, limit, start, n, p)
  }

  /** The call after n others, `done` places into the first lap, serves what it reaches of it. */
  lemma CallServes(may: Filter, peers: seq<Peer>, limit: nat, start: nat, log: Log, n: nat, done: nat, to: nat)
    requires start < |peers| && done < |peers| && Logs(log, may, peers, limit, start)
    requires StartAfter(may, peers, limit, start, n) == Around(|peers|, start, done)
    requires forall i :: done <= i < to && i < |peers| && may(Lap(peers, start)[i]) ==>
      i - done < Reach(may, peers, limit, Around(|peers|, start, done))
    ensures Serving(may, Lap(peers, start), log, n, done, to)
  {
    var lap := Lap(peers, start);
    forall i | done <= i < to && i < |lap| && may(lap[i])
      ensures log(n, lap[i])
    {
      LaterLap(peers, start, done);
      ReachedIsServed(may, peers, limit, Around(|peers|, start, done), i - done);
      assert LogsAt(log, may, peers, limit, start, n, lap[i]);
    }
  }

  lemma AroundTwice(n: nat, start: nat, a: nat, b: nat)
    requires start < n && a + b < n
    ensures Around(n, Around(n, start, a), b) == Around(n, start, a + b)
  {
  }

  /** n calls have gone round, or are `done` places into the lap. */
  ghost predicate Progress(may: Filter, peers: seq<Peer>, limit: nat, start: nat, log: Log, n: nat, done: nat)
    requires start < |peers|
  {
    || AllServed(may, Lap(peers, start), log, n)
    || (Underway(may, Lap(peers, start), limit, log, n, done)
        && StartAfter(may, peers, limit, start, n) == Around(|peers|, start, done))
  }

  lemma OneMoreCall(may: Filter, peers: seq<Peer>, limit: nat, start: nat, log: Log, n: nat, done: nat)
    returns (next: nat)
    requires start < |peers| && limit > 0 && Logs(log, may, peers, limit, start)
    requires Progress(may, peers, limit, start, log, n, done)
    ensures Progress(may, peers, limit, start, log, n + 1, next)
  {
    next := done;
    var lap := Lap(peers, start);
    if AllServed(may, lap, log, n) {
      ServedLater(may, lap, log, n);
    } else if Count(may, lap, |lap|) <= Count(may, lap, done) + limit {
      CallEndsLap(may, peers, limit, start, log, n, done);
    } else {
      var end := Reach(may, peers, limit, Around(|peers|, start, done));
      next := done + end;
      CallGoesOn(may, peers, limit, start, log, n, done, end);
    }
  }

  lemma CallEndsLap(may: Filter, peers: seq<Peer>, limit: nat, start: nat, log: Log, n: nat, done: nat)
    requires start < |peers| && limit > 0 && Logs(log, may, peers, limit, start)
    requires Underway(may, Lap(peers, start), limit, log, n, done)
    requires StartAfter(may, peers, limit, start, n) == Around(|peers|, start, done)
    requires Count(may, Lap(peers, start), |peers|) <= Count(may, Lap(peers, start), done) + limit
    ensures AllServed(may, Lap(peers, start), log, n + 1)
  {
    CallProgress(may, peers, limit, start, done);
    CallServes(may, peers, limit, start, log, n, done, |peers|);
    LastCall(may, Lap(peers, start), limit, log, n, done);
  }

  lemma CallGoesOn(may: Filter, peers: seq<Peer>, limit: nat, start: nat, log: Log, n: nat, done: nat, end: nat)
    requires start < |peers| && limit > 0 && Logs(log, may, peers, limit, start)
    requires Underway(may, Lap(peers, start), limit, log, n, done)
    requires StartAfter(may, peers, limit, start, n) == Around(|peers|, start, done)
    requires Count(may, Lap(peers, start), |peers|) > Count(may, Lap(peers, start), done) + limit
    requires end == Reach(may, peers, limit, Around(|peers|, start, done))
    ensures Underway(may, Lap(peers, start), limit, log, n + 1, done + end)
    ensures StartAfter(may, peers, limit, start, n + 1) == Around(|peers|, start, done + end)
  {
    CallProgress(may, peers, limit, start, done);
    CallServes(may, peers, limit, start, log, n, done, done + end);
    NextCall(may, Lap(peers, start), limit, log, n, done, done + end);
    AroundTwice(|peers|, start, done, end);
  }

  lemma {:induction false} CallsProgress(may: Filter, peers: seq<Peer>, limit: nat, start: nat, log: Log, n: nat)
    returns (done: nat)
    requires start < |peers| && limit > 0 && Logs(log, may, peers, limit, start)
    ensures Progress(may, peers, limit, start, log, n, done)
  {
    if n == 0 {
      done := 0;
    } else {
      done := CallsProgress(may, peers, limit, start, log, n - 1);
      done := OneMoreCall(may, peers, limit, start, log, n - 1, done);
    }
  }

  /** Nothing eligible lies behind a point before which everything was counted. */
  lemma AllCounted(may: Filter, lap: seq<Peer>, done: nat, i: nat)
    requires done <= i < |lap| && Count(may, lap, done) >= Count(may, lap, |lap|)
    ensures !may(lap[i])
  {
    CountGrows(may, lap, done, i);
    CountGrows(may, lap, i + 1, |lap|);
  }

  /** Enough calls have gone round. */
  lemma AllAreServed(may: Filter, peers: seq<Peer>, limit: nat, start: nat, log: Log, n: nat)
    requires start < |peers| && limit > 0 && Logs(log, may, peers, limit, start)
    requires Times(n, limit) >= Count(may, Lap(peers, start), |peers|)
    ensures AllServed(may, Lap(peers, start), log, n)
  {
    var lap := Lap(peers, start);
    var done := CallsProgress(may, peers, limit, start, log, n);
    if !AllServed(may, lap, log, n) {
      forall i | done <= i < |lap|
        ensures !may(lap[i])
      {
        AllCounted(may, lap, done, i);
      }
    }
  }

  /**
   * As long as the peers and their eligibility stay the same, enough calls in a row reach everybody, wherever they
   * start: n calls do if n times `limit` is at least the number of eligible peers.
   */
  lemma EverybodyIsReached(may: Filter, peers: seq<Peer>, limit: nat, start: nat, n: nat, p: Peer)
    requires start < |peers| && limit > 0 && n * limit >= Count(may, Lap(peers, start), |peers|)
    requires p in peers && may(p)
    ensures exists m: nat :: m < n && ServedBy(may, peers, limit, start, m, p)
  {
    var lap := Lap(peers, start);
    TimesIsProduct(n, limit);
    LapHas(peers, start, p);
    var log := (m: nat, q: Peer) => ServedBy(may, peers, limit, start, m, q);
    AllAreServed(may, peers, limit, start, log, n);
    var i :| 0 <= i < |lap| && lap[i] == p;
    assert ServedWithin(log, n, lap[i]);
    var m: nat :| m < n && log(m, p);
    assert ServedBy(may, peers, limit, start, m, p);
  }

  /** So everybody eligible is among the destinations of the row. */
  lemma RowServes(may: Filter, peers: seq<Peer>, limit: nat, start: nat, n: nat)
    requires start < |peers| && limit > 0 && n * limit >= Count(may, Lap(peers, start), |peers|)
    ensures forall p :: p in peers && may(p) ==> IsSent(InRow(may, peers, limit, start, n), p)
  {
    forall p | p in peers && may(p)
      ensures IsSent(InRow(may, peers, limit, start, n), p)
    {
      EverybodyIsReached(may, peers, limit, start, n, p);
      var m: nat :| m < n && ServedBy(may, peers, limit, start, m, p);
      InRowHas(may, peers, limit, start, n, m, p);
    }
  }
}
