/**
  The peers' addresses and the hash table that finds a peer by its address.

  Each remote address belongs to one enabled peer at a time, and never to a peer
  other than the one it is statically configured for. The hash table holds
  exactly the peers whose address is set; it doubles when it gets too full.

  The table is written against any hash that respects address equality; the
  Jenkins hash of `Addresses` is one. A peer's configuration is fixed.
*/
module PeerTable {
  import opened Addresses
  import opened Basics
  import opened Sets

  /** A configured remote: a host name to be resolved, or a literal address. */
  datatype Remote = Remote(hostname: bool, address: Address)

  datatype State = Inactive | Pending | Established

  class Peer {
    const enabled: bool
    const floating: bool
    const remotes: seq<Remote>
    var state: State
    var address: Address
    var backup: Address

    constructor (enabled: bool, floating: bool, remotes: seq<Remote>)
      ensures this.enabled == enabled && this.floating == floating && this.remotes == remotes
      ensures address.Unspec? && backup.Unspec? && !state.Established?
    {
      this.enabled, this.floating, this.remotes := enabled, floating, remotes;
      state := if enabled then Pending else Inactive;
      address, backup := Unspec, Unspec;
    }

    /** The address is statically configured for this peer. */
    predicate Owns(a: Address) {
      !floating && exists i :: 0 <= i < |remotes| && !remotes[i].hostname && AddressEqual(remotes[i].address, a)
    }

    method OwnsAddress(a: Address) returns (r: bool)
      ensures r == Owns(a)
    {
      if floating {
        return false;
      }
      for i := 0 to |remotes|
        invariant forall j :: 0 <= j < i ==> remotes[j].hostname || !AddressEqual(remotes[j].address, a)
      {
        if !remotes[i].hostname && AddressEqual(remotes[i].address, a) {
          return true;
        }
      }
      return false;
    }
  }

  /** The bucket of an address: a function of the seed, the address and the number of buckets. */
  type Hasher = h: (bv32, Address, nat) -> nat |
      forall seed: bv32, a: Address, size: nat :: size > 0 ==> h(seed, a, size) < size
    ghost witness (seed: bv32, a: Address, size: nat) => 0

  /** Equal addresses belong in the same bucket, whatever the seed and the size. */
  ghost predicate Respects(hash: Hasher) {
    forall seed: bv32, a: Address, b: Address, size: nat {:trigger hash(seed, a, size), hash(seed, b, size)} ::
      AddressEqual(a, b) && !a.Unspec? ==> hash(seed, a, size) == hash(seed, b, size)
  }

  lemma RespectsUse(hash: Hasher, seed: bv32, a: Address, b: Address, size: nat)
    requires Respects(hash) && AddressEqual(a, b) && !a.Unspec?
    ensures hash(seed, a, size) == hash(seed, b, size)
  {
  }

  /** The source's bucket: the Jenkins hash modulo the size. An unset address is never hashed. */
  function JenkinsBucket(): Hasher {
    (seed: bv32, a: Address, size: nat) =>
      if a.Unspec? || size == 0 then 0 else HashFinal(HashAddress(seed, a)) as nat % size
  }

  lemma JenkinsRespects()
    ensures Respects(JenkinsBucket())
  {
    var h := JenkinsBucket();
    forall seed: bv32, a: Address, b: Address, size: nat | AddressEqual(a, b) && !a.Unspec?
      ensures h(seed, a, size) == h(seed, b, size)
    {
      EqualAddressesHashEqually(seed, a, b);
    }
  }

  /** The buckets hold exactly the peers in `at`, each once and in the bucket that `at` names. */
  ghost predicate Filed(buckets: seq<seq<Peer>>, at: map<Peer, nat>) {
    && (forall p :: p in at ==> at[p] < |buckets| && p in buckets[at[p]])
    && (forall b :: 0 <= b < |buckets| ==> Distinct(buckets[b]))
    && (forall b, p :: 0 <= b < |buckets| && p in buckets[b] ==> p in at && at[p] == b)
  }

  lemma FiledWithout(buckets: seq<seq<Peer>>, at: map<Peer, nat>, p: Peer, b: nat, i: nat)
    requires Filed(buckets, at) && b < |buckets| && i < |buckets[b]| && buckets[b][i] == p
    ensures Filed(buckets[b := buckets[b][..i] + buckets[b][i + 1..]], at - {p})
  {
    var bucket := buckets[b];
    ListWithout(bucket, i);
    var rest := bucket[..i] + bucket[i + 1..];
    var after, at' := buckets[b := rest], at - {p};
    assert p in buckets[b] && at[p] == b;
    forall q | q in at' ensures at'[q] < |after| && q in after[at'[q]] {
      assert q in buckets[at[q]];
    }
    forall c | 0 <= c < |after| ensures Distinct(after[c]) {}
    forall c, q | 0 <= c < |after| && q in after[c] ensures q in at' && at'[q] == c {
      assert q in buckets[c];
    }
  }

  lemma FiledWith(buckets: seq<seq<Peer>>, at: map<Peer, nat>, p: Peer, b: nat)
    requires Filed(buckets, at) && b < |buckets| && p !in at
    ensures Filed(buckets[b := buckets[b] + [p]], at[p := b])
  {
    var more := buckets[b := buckets[b] + [p]];
    assert p in more[b];
    assert forall q :: q in buckets[b] ==> q in more[b];
  }

  class Peers {
    const hash: Hasher
    var peers: seq<Peer>
    var buckets: seq<seq<Peer>>
    var used: nat
    var seed: bv32

    /** Starts with eight empty buckets and peers that have no address yet. */
    constructor (hash: Hasher, peers: seq<Peer>, seed: bv32)
      requires Distinct(peers) && forall p :: p in peers ==> p.address.Unspec?
      ensures this.hash == hash && this.peers == peers && Holds(Addressed())
    {
      this.hash, this.peers, this.seed, used := hash, peers, seed, 0;
      buckets := seq(8, _ => []);
    }

    function Bucket(a: Address): (b: nat)
      requires |buckets| > 0
      reads this`seed, this`buckets
      ensures b < |buckets|
    {
      hash(seed, a, |buckets|)
    }

    /** Where the peers `s` belong. */
    ghost function Places(s: set<Peer>): map<Peer, nat>
      requires |buckets| > 0
      reads this`seed, this`buckets, s`address
    {
      map p | p in s :: Bucket(p.address)
    }

    /** The table holds exactly the peers `s`, each once and in the bucket of its address. */
    ghost predicate Holds(s: set<Peer>)
      reads this`buckets, this`used, this`seed, s`address
    {
      && |buckets| > 0 && used == |s| <= 2 * |buckets| && (forall p :: p in s ==> !p.address.Unspec?)
      && Filed(buckets, Places(s))
    }

    /** The peers among the first `n` whose address is set. */
    ghost function SetUpTo(n: nat): set<Peer>
      requires n <= |peers|
      reads this`peers, peers`address
    {
      if n == 0 then {}
      else SetUpTo(n - 1) + (if peers[n - 1].address.Unspec? then {} else {peers[n - 1]})
    }

    ghost function Addressed(): set<Peer>
      reads this`peers, peers`address
    {
      set p | p in peers && !p.address.Unspec?
    }

    /** Removes a peer from the table; the source requires that its address has not changed since it was put in. */
    method TableRemove(peer: Peer, ghost s: set<Peer>, ghost rest: set<Peer>)
      requires Holds(s) && (!peer.address.Unspec? ==> peer in s) && rest == s - {peer}
      modifies this`buckets, this`used
      ensures Holds(rest)
    {
      if peer.address.Unspec? {
        assert rest == s;
        return;
      }
      var b := Bucket(peer.address);
      assert peer in Places(s) && peer in buckets[b];
      var i := 0;
      while i < |buckets[b]|
        invariant 0 <= i <= |buckets[b]| && peer !in buckets[b][..i]
      {
        if buckets[b][i] == peer {
          break;
        }
        i := i + 1;
      }
      FiledWithout(buckets, Places(s), peer, b, i);
      ghost var at := Places(s) - {peer};
      buckets := buckets[b := buckets[b][..i] + buckets[b][i + 1..]];
      used := used - 1;
      assert Places(rest) == at;
    }

    /** Puts a peer with a set address, already counted in `used`, into its bucket. */
    method Append(peer: Peer, ghost s: set<Peer>, ghost t: set<Peer>)
      requires |buckets| > 0 && Filed(buckets, Places(s)) && peer !in s && t == s + {peer}
      requires used == |t| <= 2 * |buckets| && forall p :: p in t ==> !p.address.Unspec?
      modifies this`buckets
      ensures |buckets| == |old(buckets)| && Holds(t)
    {
      var b := Bucket(peer.address);
      FiledWith(buckets, Places(s), peer, b);
      ghost var at := Places(s)[peer := b];
      buckets := buckets[b := buckets[b] + [peer]];
      assert Places(t) == at;
    }

    lemma {:induction false} SetUpToIs(n: nat)
      requires n <= |peers|
      ensures SetUpTo(n) == set p | p in peers[..n] && !p.address.Unspec?
    {
      if n > 0 {
        SetUpToIs(n - 1);
        assert peers[..n] == peers[..n - 1] + [peers[n - 1]];
      }
    }

    lemma SetUpToWithin(n: nat)
      requires n <= |peers|
      ensures SetUpTo(n) <= Addressed() && |SetUpTo(n)| <= |Addressed()|
    {
      SetUpToIs(n);
      SubsetSize(SetUpTo(n), Addressed());
    }

    lemma SetUpToAll()
      ensures SetUpTo(|peers|) == Addressed()
    {
      SetUpToIs(|peers|);
      assert peers[..|peers|] == peers;
    }

    lemma ResizeStep(i: nat)
      requires i < |peers| && Distinct(peers)
      ensures peers[i] !in SetUpTo(i)
      ensures SetUpTo(i + 1) == if peers[i].address.Unspec? then SetUpTo(i) else SetUpTo(i) + {peers[i]}
      ensures !peers[i].address.Unspec? ==> |SetUpTo(i)| + 1 <= |Addressed()|
    {
      SetUpToIs(i);
      SetUpToIs(i + 1);
      SetUpToWithin(i + 1);
      assert peers[i] !in peers[..i];
    }

    /**
      Puts a peer into the table, doubling the table first if it would hold more than two peers per bucket.
      Doubling rebuilds the table from the peer list, so it needs that list to agree with the table. `nest`
      is 0 inside a rebuild, where no second doubling can be due.
    */
    method TableInsert(peer: Peer, reseed: bv32, ghost s: set<Peer>, ghost t: set<Peer>, ghost nest: nat)
      requires Holds(s) && peer !in s && t == if peer.address.Unspec? then s else s + {peer}
      requires nest == 0 && !peer.address.Unspec? ==> used + 1 <= 2 * |buckets|
      requires nest > 0 && !peer.address.Unspec? ==> Distinct(peers) && t == Addressed()
      modifies this`buckets, this`used, this`seed
      ensures Holds(t)
      ensures nest == 0 ==> |buckets| == |old(buckets)| && seed == old(seed)
      decreases nest, 2
    {
      if !peer.address.Unspec? {
        InsertSet(peer, reseed, s, t, nest);
      }
    }

    method InsertSet(peer: Peer, reseed: bv32, ghost s: set<Peer>, ghost t: set<Peer>, ghost nest: nat)
      requires Holds(s) && peer !in s && !peer.address.Unspec? && t == s + {peer}
      requires if nest == 0 then used + 1 <= 2 * |buckets| else Distinct(peers) && t == Addressed()
      modifies this`buckets, this`used, this`seed
      ensures Holds(t)
      ensures nest == 0 ==> |buckets| == |old(buckets)| && seed == old(seed)
      decreases nest, 1
    {
      CountOne(s, peer);
      used := used + 1;
      if used > 2 * |buckets| {
        Resize(reseed, nest);
      } else {
        Append(peer, s, t);
      }
    }

    method Empty(size: nat, reseed: bv32)
      requires size > 0
      modifies this`buckets, this`used, this`seed
      ensures |buckets| == size && Holds({})
    {
      used, seed := 0, reseed;
      buckets := seq(size, _ => []);
    }

    /** Doubles the number of buckets and files every peer with a set address again. */
    method Resize(reseed: bv32, ghost nest: nat)
      requires nest > 0 && |buckets| > 0 && Distinct(peers) && |Addressed()| <= 4 * |buckets|
      modifies this`buckets, this`used, this`seed
      ensures Holds(Addressed()) && |buckets| == 2 * |old(buckets)|
      decreases nest, 0
    {
      var size := 2 * |buckets|;
      Empty(size, reseed);
      for i := 0 to |peers|
        invariant |buckets| == size && Holds(SetUpTo(i))
      {
        Refile(i, reseed);
      }
      SetUpToAll();
    }

    /** Files the next peer of the list in a rebuilt table. */
    method Refile(i: nat, reseed: bv32)
      requires i < |peers| && Distinct(peers) && Holds(SetUpTo(i)) && |Addressed()| <= 2 * |buckets|
      modifies this`buckets, this`used, this`seed
      ensures Holds(SetUpTo(i + 1)) && |buckets| == |old(buckets)|
      decreases 0, 3
    {
      ResizeStep(i);
      TableInsert(peers[i], reseed, SetUpTo(i), SetUpTo(i + 1), 0);
    }

    lemma SameBucket(a: Address, b: Address)
      requires |buckets| > 0 && Respects(hash) && AddressEqual(a, b) && !a.Unspec?
      ensures Bucket(a) == Bucket(b)
    {
      RespectsUse(hash, seed, a, b, |buckets|);
    }

    /** Finds a peer by address. */
    method Lookup(a: Address, ghost s: set<Peer>) returns (r: Peer?)
      requires Holds(s) && !a.Unspec? && Respects(hash)
      ensures r != null ==> r in s && AddressEqual(r.address, a)
      ensures r == null ==> forall p :: p in s ==> !AddressEqual(p.address, a)
    {
      var b := Bucket(a);
      for i := 0 to |buckets[b]|
        invariant forall j :: 0 <= j < i ==> !AddressEqual(buckets[b][j].address, a)
      {
        var p := buckets[b][i];
        assert p in Places(s);
        if AddressEqual(p.address, a) {
          return p;
        }
      }
      forall p | p in s ensures !AddressEqual(p.address, a) {
        assert p in Places(s) && p in buckets[Bucket(p.address)];
        if AddressEqual(p.address, a) { SameBucket(p.address, a); }
      }
      return null;
    }

    // ------------------------------------------------------- whose address it is

    ghost predicate Valid()
      reads this, peers`address
    {
      Distinct(peers) && Holds(Addressed())
    }

    ghost function View(): map<Peer, Slot>
      reads this`peers, peers
    {
      map p | p in peers :: Slot(p.state, p.address, p.backup)
    }

    /** Changes the address of a peer that is not in the table. */
    method SetAddress(peer: Peer, a: Address, ghost s: set<Peer>)
      requires Holds(s) && peer !in s
      modifies peer`address
      ensures Holds(s) && peer.address == a
    {
      peer.address := a;
    }

    /** Takes a peer out of the table and unsets its address. */
    method Unset(peer: Peer)
      requires Valid() && peer in peers
      modifies this`buckets, this`used, peer`address
      ensures Valid() && peer.address.Unspec?
    {
      ghost var s := Addressed();
      ghost var rest := set p | p in peers && p != peer && !p.address.Unspec?;
      TakeOut(peer, s, rest);
      assert Addressed() == rest;
    }

    method TakeOut(peer: Peer, ghost s: set<Peer>, ghost rest: set<Peer>)
      requires Holds(s) && (!peer.address.Unspec? ==> peer in s) && rest == s - {peer}
      modifies this`buckets, this`used, peer`address
      ensures Holds(rest) && peer.address.Unspec?
    {
      TableRemove(peer, s, rest);
      SetAddress(peer, Unspec, rest);
    }

    /** Gives a peer an address and files it under it. */
    method Assign(peer: Peer, a: Address, reseed: bv32)
      requires Valid() && peer in peers && peer.address.Unspec?
      modifies this`buckets, this`used, this`seed, peer`address
      ensures Valid() && peer.address == a
    {
      ghost var s := Addressed();
      SetAddress(peer, a, s);
      ghost var s' := if a.Unspec? then s else s + {peer};
      assert Addressed() == s';
      TableInsert(peer, reseed, s, s', 1);
      assert Addressed() == s';
    }

    /** Resets a peer unless it is inactive, and sets it up again. */
    method Reset(peer: Peer)
      requires Valid() && peer in peers
      modifies this`buckets, this`used, peer
      ensures Valid() && View() == old(View())[peer := AfterReset(peer.enabled, old(View())[peer])]
    {
      ghost var v := View();
      assert v[peer] == Slot(peer.state, peer.address, peer.backup);
      if !peer.state.Inactive? {
        ResetPeer(peer);
      }
      ghost var w := View();
      assert w[peer] == Slot(peer.state, peer.address, peer.backup) && w == v[peer := w[peer]];
      SetUp(peer);
      assert View() == v[peer := View()[peer]];
    }

    /** An enabled peer starts over; a disabled one stays inactive. */
    method SetUp(peer: Peer)
      requires peer in peers
      modifies peer`state
      ensures View() ==
        old(View())[peer := old(View())[peer].(state := if peer.enabled then Pending else old(peer.state))]
    {
      ghost var v := View();
      if peer.enabled {
        peer.state := Pending;
      }
      assert forall p :: p in peers && p != peer ==> View()[p] == v[p];
    }

    /** Drops the connection and both addresses of a peer. */
    method ResetPeer(peer: Peer)
      requires Valid() && peer in peers
      modifies this`buckets, this`used, peer
      ensures Valid() && View() == old(View())[peer := Slot(Inactive, Unspec, Unspec)]
    {
      ghost var v := View();
      Disconnect(peer);
      assert forall p :: p in peers && p != peer ==> View()[p] == v[p];
    }

    method Disconnect(peer: Peer)
      requires Valid() && peer in peers
      modifies this`buckets, this`used, peer
      ensures Valid() && peer.address.Unspec? && peer.backup.Unspec? && peer.state.Inactive?
    {
      Unset(peer);
      peer.backup, peer.state := Unspec, Inactive;
    }

    /** Takes the address of a peer away: an established peer is reset. */
    method ResetAddress(peer: Peer)
      requires Valid() && peer in peers
      modifies this`buckets, this`used, peer
      ensures Valid() && View() == old(View())[peer := AfterResetAddress(peer.enabled, old(View())[peer])]
    {
      ghost var v := View();
      if peer.state.Established? {
        Reset(peer);
      } else {
        Unset(peer);
        assert forall p :: p in peers && p != peer ==> View()[p] == v[p];
      }
    }

    /** Walks the peers until one owns the address or has it; the first one found decides. */
    method FindConflict(peer: Peer, a: Address) returns (owned: bool, holder: Peer?)
      requires !a.Unspec?
      ensures owned ==> exists q :: q in peers && q != peer && q.enabled && q.Owns(a)
      ensures holder != null ==> !owned && holder in peers && holder != peer && holder.enabled && !holder.Owns(a)
      ensures holder != null ==> AddressEqual(holder.address, a)
      ensures !owned && holder == null ==> forall q :: q in peers && q != peer && q.enabled ==>
        !q.Owns(a) && !AddressEqual(q.address, a)
    {
      for i := 0 to |peers|
        invariant forall j :: 0 <= j < i && peers[j] != peer && peers[j].enabled ==>
          !peers[j].Owns(a) && !AddressEqual(peers[j].address, a)
      {
        var q := peers[i];
        if q == peer || !q.enabled {
          continue;
        }
        var owns := q.OwnsAddress(a);
        if owns {
          return true, null;
        }
        if AddressEqual(q.address, a) {
          return false, q;
        }
      }
      return false, null;
    }

    /**
      Tries to give a peer a remote address. It fails, and the peer loses its address, exactly if the socket
      does not fit (`blocked`), the address is configured for another enabled peer, or without `force` if
      another enabled peer is established with it. Otherwise the enabled peer that had it, if any, loses it.
    */
    method Claim(peer: Peer, a: Address, force: bool, blocked: bool, reseed: bv32) returns (ok: bool)
      requires Valid() && Exclusive(View()) && peer in peers
      modifies this`buckets, this`used, this`seed, peers
      ensures Valid() && Exclusive(View())
      ensures ok <==> !blocked && (a.Unspec? || !Refused(old(View()), peer, a, force))
      ensures View() == Claimed(old(View()), peer, a, ok)
    {
      ghost var v := View();
      ok := Decide(peer, a, force, blocked, reseed);
      ClaimedExclusive(v, peer, a, force, ok);
    }

    method Decide(peer: Peer, a: Address, force: bool, blocked: bool, reseed: bv32) returns (ok: bool)
      requires Valid() && Exclusive(View()) && peer in peers
      modifies this`buckets, this`used, this`seed, peers
      ensures Valid()
      ensures ok <==> !blocked && (a.Unspec? || !Refused(old(View()), peer, a, force))
      ensures View() == Claimed(old(View()), peer, a, ok)
    {
      if blocked {
        Fail(peer, a);
        return false;
      }
      if a.Unspec? {
        TakeNothing(peer, reseed);
        return true;
      }
      ok := DecideSet(peer, a, force, reseed);
    }

    method DecideSet(peer: Peer, a: Address, force: bool, reseed: bv32) returns (ok: bool)
      requires Valid() && Exclusive(View()) && peer in peers && !a.Unspec?
      modifies this`buckets, this`used, this`seed, peers
      ensures Valid()
      ensures ok <==> !Refused(old(View()), peer, a, force)
      ensures View() == Claimed(old(View()), peer, a, ok)
    {
      var holder;
      ok, holder := Choose(peer, a, force);
      if !ok {
        Fail(peer, a);
        return;
      }
      TakeFrom(peer, a, holder, reseed);
    }

    /** Whether a peer may have an address, and which enabled peer has to give it up. */
    method Choose(peer: Peer, a: Address, force: bool) returns (ok: bool, holder: Peer?)
      requires Valid() && Exclusive(View()) && peer in peers && !a.Unspec?
      ensures ok <==> !Refused(View(), peer, a, force)
      ensures holder != null ==> holder in peers && holder != peer && holder.enabled && AddressEqual(holder.address, a)
      ensures ok ==> forall q :: q in peers && q != peer && q != holder && q.enabled ==> !AddressEqual(q.address, a)
    {
      ghost var v := View();
      var owned;
      owned, holder := FindConflict(peer, a);
      if holder != null { HolderAlone(v, peer, holder, a); }
      ok := !owned && !(holder != null && !force && holder.state.Established?);
    }

    /** A failed claim. */
    method Fail(peer: Peer, ghost a: Address)
      requires Valid() && peer in peers
      modifies this`buckets, this`used, peer
      ensures Valid() && View() == Claimed(old(View()), peer, a, false)
    {
      ResetAddress(peer);
    }

    /** A claim of the unset address: an established peer is reset. */
    method TakeNothing(peer: Peer, reseed: bv32)
      requires Valid() && peer in peers
      modifies this`buckets, this`used, this`seed, peer
      ensures Valid() && View() == Claimed(old(View()), peer, Unspec, true)
    {
      UnclaimedIs(View(), peer);
      if peer.state.Established? {
        Reset(peer);
      }
      Change(peer, Unspec, reseed);
    }

    /** A claim that succeeds; `holder` is the enabled peer that had the address, if any. */
    method TakeFrom(peer: Peer, a: Address, holder: Peer?, reseed: bv32)
      requires Valid() && peer in peers && !a.Unspec?
      requires holder != null ==> holder in peers && holder != peer && holder.enabled && AddressEqual(holder.address, a)
      requires forall q :: q in peers && q != peer && q != holder && q.enabled ==> !AddressEqual(q.address, a)
      modifies this`buckets, this`used, this`seed, peers
      ensures Valid() && View() == Claimed(old(View()), peer, a, true)
    {
      ClaimedIs(View(), peer, holder, a);
      if holder != null {
        ResetAddress(holder);
      }
      Change(peer, a, reseed);
    }

    /** Files a peer under a new address. */
    method Change(peer: Peer, a: Address, reseed: bv32)
      requires Valid() && peer in peers
      modifies this`buckets, this`used, this`seed, peer`address
      ensures Valid() && View() == old(View())[peer := old(View())[peer].(address := a)]
    {
      ghost var v := View();
      Move(peer, a, reseed);
      assert forall p :: p in peers && p != peer ==> View()[p] == v[p];
    }

    method Move(peer: Peer, a: Address, reseed: bv32)
      requires Valid() && peer in peers
      modifies this`buckets, this`used, this`seed, peer`address
      ensures Valid() && peer.address == a
    {
      Unset(peer);
      Assign(peer, a, reseed);
    }

    /** Resets a peer and takes it off the list. */
    method Delete(peer: Peer)
      requires Valid() && Exclusive(View()) && peer in peers
      modifies this`peers, this`buckets, this`used, peer
      ensures Valid() && Exclusive(View()) && View() == old(View()) - {peer}
      ensures forall p :: p in peers ==> p in old(peers)
    {
      ghost var v := View();
      ResetExclusive(v, peer);
      Drop(peer);
      assert v[peer := Slot(Inactive, Unspec, Unspec)] - {peer} == v - {peer};
    }

    method Drop(peer: Peer)
      requires Valid() && peer in peers
      modifies this`peers, this`buckets, this`used, peer
      ensures Valid() && View() == old(View())[peer := Slot(Inactive, Unspec, Unspec)] - {peer}
      ensures forall p :: p in peers ==> p in old(peers)
    {
      ResetPeer(peer);
      assert View()[peer].address.Unspec?;
      DropFromList(peer);
    }

    method DropFromList(peer: Peer)
      requires Distinct(peers) && peer in peers && peer.address.Unspec?
      modifies this`peers
      ensures Distinct(peers) && Addressed() == old(Addressed()) && View() == old(View()) - {peer}
      ensures forall p :: p in peers ==> p in old(peers)
    {
      var i := PeerIndex(peer);
      ListWithout(peers, i);
      peers := peers[..i] + peers[i + 1..];
    }

    method PeerIndex(peer: Peer) returns (i: nat)
      requires peer in peers
      ensures i < |peers| && peers[i] == peer
    {
      i := 0;
      while peers[i] != peer
        invariant 0 <= i < |peers| && peer in peers[i..]
        decreases |peers| - i
      {
        i := i + 1;
      }
    }

    /** Keeps an address as a peer's backup, unless another enabled peer owns it, uses it or has it as a live backup. */
    method ClaimBackup(peer: Peer, a: Address, allowed: bool, expired: set<Peer>) returns (ok: bool)
      requires Valid() && Exclusive(View()) && peer in peers && !a.Unspec?
      modifies peer`backup
      ensures Valid() && Exclusive(View())
      ensures ok <==> allowed && BackupAllowed(old(View()), peer, a, expired)
      ensures View() == if ok then old(View())[peer := old(View())[peer].(backup := a)] else old(View())
    {
      if !allowed {
        return false;
      }
      var conflict := BackupConflict(peer, a, expired);
      if conflict {
        return false;
      }
      ghost var v := View();
      SetBackup(peer, a);
      BackupExclusive(v, View(), peer, a);
      return true;
    }

    method BackupConflict(peer: Peer, a: Address, expired: set<Peer>) returns (r: bool)
      ensures !r <==> BackupAllowed(View(), peer, a, expired)
    {
      for i := 0 to |peers|
        invariant forall j :: 0 <= j < i && peers[j] != peer && peers[j].enabled ==>
          !peers[j].Owns(a) && !AddressEqual(peers[j].address, a) &&
            (peers[j] in expired || !AddressEqual(peers[j].backup, a))
      {
        var q := peers[i];
        if q == peer || !q.enabled {
          continue;
        }
        var owns := q.OwnsAddress(a);
        if owns || AddressEqual(q.address, a) || (q !in expired && AddressEqual(q.backup, a)) {
          return true;
        }
      }
      return false;
    }

    /** Makes the backup address the one in use; `usable` tells that it has not expired and its socket is open. */
    method Promote(peer: Peer, usable: bool, offloaded: bool, reseed: bv32) returns (ok: bool)
      requires Valid() && Exclusive(View()) && peer in peers
      modifies this`buckets, this`used, this`seed, peer
      ensures ok <==> !old(peer.backup).Unspec? && usable && !offloaded
      ensures Valid() && View() == if ok then Promoted(old(View()), peer) else old(View())
      ensures ok ==> (Exclusive(View()) <==> !peer.enabled || BackupFree(old(View()), peer))
    {
      if peer.backup.Unspec? || !usable || offloaded {
        return false;
      }
      PromotedExclusive(View(), peer);
      Swap(peer, reseed);
      return true;
    }

    method Swap(peer: Peer, reseed: bv32)
      requires Valid() && peer in peers
      modifies this`buckets, this`used, this`seed, peer`address, peer`backup
      ensures Valid() && View() == Promoted(old(View()), peer)
    {
      var was := peer.address;
      Change(peer, peer.backup, reseed);
      SetBackup(peer, was);
    }

    method SetBackup(peer: Peer, a: Address)
      requires peer in peers
      modifies peer`backup
      ensures View() == old(View())[peer := old(View())[peer].(backup := a)]
    {
      ghost var v := View();
      peer.backup := a;
      assert forall p :: p in peers && p != peer ==> View()[p] == v[p];
    }

    /** A peer's handshake is done. */
    method Establish(peer: Peer)
      requires Valid() && Exclusive(View()) && peer in peers
      modifies peer`state
      ensures Valid() && Exclusive(View())
      ensures View() == old(View())[peer := old(View())[peer].(state := Established)]
    {
      ghost var v := View();
      peer.state := Established;
      assert forall p :: p in peers && p != peer ==> View()[p] == v[p];
      StateExclusive(v, View());
    }

    /** One step of a run; a promotion takes place only while no other enabled peer uses the backup address. */
    method Perform(step: Step)
      requires Valid() && Exclusive(View()) && step.peer in peers
      modifies this`peers, this`buckets, this`used, this`seed, peers
      ensures Valid() && Exclusive(View()) && View() == NextView(old(View()), step)
      ensures forall p :: p in peers ==> p in old(peers)
    {
      match step
      case ClaimStep(peer, a, force, blocked, reseed) => var _ := Claim(peer, a, force, blocked, reseed);
      case ResetStep(peer) =>
        ResetExclusive(View(), peer);
        Reset(peer);
      case DeleteStep(peer) =>
        Delete(peer);
      case EstablishStep(peer) => Establish(peer);
      case BackupStep(peer, a, allowed, expired) =>
        if !a.Unspec? { var _ := ClaimBackup(peer, a, allowed, expired); }
      case PromoteStep(peer, usable, offloaded, reseed) => PromoteFree(peer, usable, offloaded, reseed);
    }

    method PromoteFree(peer: Peer, usable: bool, offloaded: bool, reseed: bv32)
      requires Valid() && Exclusive(View()) && peer in peers
      modifies this`buckets, this`used, this`seed, peer
      ensures Valid() && Exclusive(View())
      ensures View() == NextView(old(View()), PromoteStep(peer, usable, offloaded, reseed))
    {
      if !peer.backup.Unspec? {
        var used := false;
        for i := 0 to |peers|
          invariant !used <==> forall j :: 0 <= j < i && peers[j] != peer && peers[j].enabled ==>
            !AddressEqual(peers[j].address, peer.backup)
          invariant Valid() && Exclusive(View()) && !peer.backup.Unspec?
        {
          used := used || (peers[i] != peer && peers[i].enabled && AddressEqual(peers[i].address, peer.backup));
        }
        if !used { var _ := Promote(peer, usable, offloaded, reseed); }
      }
    }

    /**
      Every run of claims, resets, deletions, backup claims and promotions does to the peers what its steps say,
      and keeps the table equal to the peers with a set address and the enabled peers apart; and lookup finds a
      peer with an address exactly if there is one.
    */
    method Run(steps: seq<Step>, a: Address) returns (found: Peer?)
      requires Valid() && Exclusive(View()) && Respects(hash) && !a.Unspec?
      modifies this`peers, this`buckets, this`used, this`seed, peers
      ensures Valid() && Exclusive(View()) && View() == ViewAt(old(View()), steps, |steps|)
      ensures found != null ==> found in peers && AddressEqual(found.address, a)
      ensures found == null ==> forall p :: p in peers ==> !AddressEqual(p.address, a)
    {
      Steps(steps);
      found := Lookup(a, Addressed());
    }

    method Steps(steps: seq<Step>)
      requires Valid() && Exclusive(View())
      modifies this`peers, this`buckets, this`used, this`seed, peers
      ensures Valid() && Exclusive(View()) && View() == ViewAt(old(View()), steps, |steps|)
    {
      ghost var v, all := View(), peers;
      for i := 0 to |steps|
        invariant Valid() && Exclusive(View()) && forall p :: p in peers ==> p in all
        invariant View() == ViewAt(v, steps, i)
      {
        PerformListed(steps[i], all);
      }
    }

    /** A step of a peer that is not on the list any more does nothing. */
    method PerformListed(step: Step, ghost all: seq<Peer>)
      requires Valid() && Exclusive(View()) && forall p :: p in peers ==> p in all
      modifies this`peers, this`buckets, this`used, this`seed, all
      ensures Valid() && Exclusive(View()) && View() == NextView(old(View()), step)
      ensures forall p :: p in peers ==> p in all
    {
      assert forall j :: 0 <= j < |peers| ==> peers[j] in all;
      if step.peer in peers {
        Perform(step);
      }
    }
  }

  lemma StateExclusive(v: map<Peer, Slot>, v': map<Peer, Slot>)
    requires Exclusive(v) && v.Keys == v'.Keys
    requires forall p :: p in v ==> v'[p].address == v[p].address && v'[p].backup == v[p].backup
    ensures Exclusive(v')
  {
    forall p, q | p in v' && q in v' && p != q && p.enabled && q.enabled ensures Apart(v', p, q) {
      assert Apart(v, p, q);
    }
  }

  datatype Step =
    | ClaimStep(peer: Peer, a: Address, force: bool, blocked: bool, reseed: bv32)
    | ResetStep(peer: Peer)
    | DeleteStep(peer: Peer)
    | EstablishStep(peer: Peer)
    | BackupStep(peer: Peer, a: Address, allowed: bool, expired: set<Peer>)
    | PromoteStep(peer: Peer, usable: bool, offloaded: bool, reseed: bv32)

  lemma ListWithout(s: seq<Peer>, i: nat)
    requires Distinct(s) && i < |s|
    ensures Distinct(s[..i] + s[i + 1..])
    ensures forall p :: p in s[..i] + s[i + 1..] <==> p in s && p != s[i]
  {
    var rest := s[..i] + s[i + 1..];
    assert forall j :: 0 <= j < |rest| ==> rest[j] == if j < i then s[j] else s[j + 1];
    forall p | p in s && p != s[i] ensures p in rest {
      var j :| 0 <= j < |s| && s[j] == p;
      assert rest[if j < i then j else j - 1] == p;
    }
  }

  lemma BackupExclusive(v: map<Peer, Slot>, v': map<Peer, Slot>, peer: Peer, a: Address)
    requires Exclusive(v) && peer in v && v' == v[peer := v[peer].(backup := a)]
    requires forall q :: q in v && q != peer && q.enabled ==> !q.Owns(a)
    ensures Exclusive(v')
  {
    forall p, q | p in v' && q in v' && p != q && p.enabled && q.enabled ensures Apart(v', p, q) {
      assert Apart(v, p, q);
    }
  }

  /** The part of a peer that changes. */
  datatype Slot = Slot(state: State, address: Address, backup: Address)

  function AfterReset(enabled: bool, s: Slot): Slot {
    var s := if s.state.Inactive? then s else Slot(Inactive, Unspec, Unspec);
    if enabled then s.(state := Pending) else s
  }

  function AfterResetAddress(enabled: bool, s: Slot): Slot {
    if s.state.Established? then AfterReset(enabled, s) else s.(address := Unspec)
  }

  /**
    No two enabled peers have the same address; no enabled peer has, in use or as its backup, an address
    that is configured for another.
  */
  ghost predicate Exclusive(v: map<Peer, Slot>) {
    forall p, q :: p in v && q in v && p != q && p.enabled && q.enabled ==> Apart(v, p, q)
  }

  ghost predicate Apart(v: map<Peer, Slot>, p: Peer, q: Peer)
    requires p in v && q in v
  {
    && (!v[p].address.Unspec? ==> !AddressEqual(v[p].address, v[q].address) && !q.Owns(v[p].address))
    && (!v[p].backup.Unspec? ==> !q.Owns(v[p].backup))
  }

  /** The claim of `a` by `peer` must fail: another enabled peer owns it, or is established with it. */
  ghost predicate Refused(v: map<Peer, Slot>, peer: Peer, a: Address, force: bool) {
    exists q :: q in v && q != peer && q.enabled &&
      (q.Owns(a) || (!force && AddressEqual(v[q].address, a) && v[q].state.Established?))
  }

  /** All peers after a claim. */
  ghost function Claimed(v: map<Peer, Slot>, peer: Peer, a: Address, ok: bool): map<Peer, Slot>
    requires peer in v
  {
    map p | p in v ::
      if p == peer then
        (if !ok then AfterResetAddress(p.enabled, v[p])
         else if a.Unspec? && v[p].state.Established? then AfterReset(p.enabled, v[p])
         else v[p].(address := a))
      else if ok && p.enabled && !a.Unspec? && AddressEqual(v[p].address, a) then AfterResetAddress(p.enabled, v[p])
      else v[p]
  }

  /** A claim changes two peers at most: the claimant, and the one that had the address. */
  lemma ClaimedIs(v: map<Peer, Slot>, peer: Peer, holder: Peer?, a: Address)
    requires peer in v && !a.Unspec?
    requires holder != null ==> holder in v && holder != peer && holder.enabled && AddressEqual(v[holder].address, a)
    requires forall q :: q in v && q != peer && q != holder && q.enabled ==> !AddressEqual(v[q].address, a)
    ensures Claimed(v, peer, a, true) ==
      var u := if holder == null then v else v[holder := AfterResetAddress(holder.enabled, v[holder])];
      u[peer := v[peer].(address := a)]
  {
  }

  lemma UnclaimedIs(v: map<Peer, Slot>, peer: Peer)
    requires peer in v
    ensures Claimed(v, peer, Unspec, true) ==
      v[peer := if v[peer].state.Established? then AfterReset(peer.enabled, v[peer]) else v[peer].(address := Unspec)]
  {
  }

  lemma OwnsRespects(p: Peer, a: Address, b: Address)
    requires AddressEqual(a, b)
    ensures p.Owns(a) == p.Owns(b)
  {
  }

  /** When an enabled peer has the address, no third enabled peer has it or owns it, so the walk may stop there. */
  lemma HolderAlone(v: map<Peer, Slot>, peer: Peer, holder: Peer, a: Address)
    requires Exclusive(v) && peer in v && holder in v && holder != peer && holder.enabled && !a.Unspec?
    requires AddressEqual(v[holder].address, a) && !holder.Owns(a)
    ensures forall q :: q in v && q != peer && q != holder && q.enabled ==> !q.Owns(a) && !AddressEqual(v[q].address, a)
  {
    forall q | q in v && q != peer && q != holder && q.enabled ensures !q.Owns(a) && !AddressEqual(v[q].address, a) {
      OwnsRespects(q, v[holder].address, a);
    }
  }

  /** A claim, successful or not, keeps the enabled peers apart. */
  lemma ClaimedExclusive(v: map<Peer, Slot>, peer: Peer, a: Address, force: bool, ok: bool)
    requires Exclusive(v) && peer in v && (ok ==> a.Unspec? || !Refused(v, peer, a, force))
    ensures Exclusive(Claimed(v, peer, a, ok))
  {
    var v' := Claimed(v, peer, a, ok);
    forall p, q | p in v' && q in v' && p != q && p.enabled && q.enabled ensures Apart(v', p, q) {
      assert Apart(v, p, q) && Apart(v, q, p);
    }
  }

  /** A reset or unset address, or a slot gone, keeps the enabled peers apart. */
  lemma ResetExclusive(v: map<Peer, Slot>, peer: Peer)
    requires Exclusive(v) && peer in v
    ensures Exclusive(v[peer := AfterReset(peer.enabled, v[peer])]) && Exclusive(v - {peer})
  {
    var v' := v[peer := AfterReset(peer.enabled, v[peer])];
    forall p, q | p in v' && q in v' && p != q && p.enabled && q.enabled ensures Apart(v', p, q) {
      assert Apart(v, p, q) && Apart(v, q, p);
    }
    forall p, q | p in v && q in v && p != peer && q != peer && p != q && p.enabled && q.enabled
      ensures Apart(v - {peer}, p, q)
    {
      assert Apart(v, p, q);
    }
  }

  /** The backup address becomes the one in use, and the other way round. */
  ghost function Promoted(v: map<Peer, Slot>, peer: Peer): map<Peer, Slot>
    requires peer in v
  {
    v[peer := v[peer].(address := v[peer].backup, backup := v[peer].address)]
  }

  /** No other enabled peer owns the address, uses it, or has it as a backup that has not expired. */
  ghost predicate BackupAllowed(v: map<Peer, Slot>, peer: Peer, a: Address, expired: set<Peer>) {
    forall q :: q in v && q != peer && q.enabled ==>
      !q.Owns(a) && !AddressEqual(v[q].address, a) && (q in expired || !AddressEqual(v[q].backup, a))
  }

  /** No other enabled peer uses the backup address of `peer`. */
  ghost predicate BackupFree(v: map<Peer, Slot>, peer: Peer)
    requires peer in v
  {
    forall q :: q in v && q != peer && q.enabled ==> !AddressEqual(v[q].address, v[peer].backup)
  }

  /** Promotion of a set backup address keeps the enabled peers apart exactly if no other one uses that address. */
  lemma PromotedExclusive(v: map<Peer, Slot>, peer: Peer)
    requires Exclusive(v) && peer in v && !v[peer].backup.Unspec?
    ensures Exclusive(Promoted(v, peer)) <==> !peer.enabled || BackupFree(v, peer)
  {
    var v' := Promoted(v, peer);
    if !peer.enabled || BackupFree(v, peer) {
      forall p, q | p in v' && q in v' && p != q && p.enabled && q.enabled ensures Apart(v', p, q) {
        assert Apart(v, p, q) && Apart(v, q, p);
        AddressEqualLaws(v'[p].address, v'[q].address, Unspec);
      }
    } else {
      var q :| q in v && q != peer && q.enabled && AddressEqual(v[q].address, v[peer].backup);
      AddressEqualLaws(v[q].address, v[peer].backup, Unspec);
      assert !Apart(v', peer, q);
    }
  }

  /** What a step does to the peers; a step of a peer that is not on the list does nothing. */
  ghost function NextView(v: map<Peer, Slot>, step: Step): map<Peer, Slot> {
    if step.peer !in v then v
    else
      match step
      case ClaimStep(peer, a, force, blocked, _) =>
        Claimed(v, peer, a, !blocked && (a.Unspec? || !Refused(v, peer, a, force)))
      case ResetStep(peer) => v[peer := AfterReset(peer.enabled, v[peer])]
      case DeleteStep(peer) => v - {peer}
      case EstablishStep(peer) => v[peer := v[peer].(state := Established)]
      case BackupStep(peer, a, allowed, expired) =>
        if !a.Unspec? && allowed && BackupAllowed(v, peer, a, expired) then v[peer := v[peer].(backup := a)] else v
      case PromoteStep(peer, usable, offloaded, _) =>
        if !v[peer].backup.Unspec? && BackupFree(v, peer) && usable && !offloaded then Promoted(v, peer) else v
  }

  ghost function ViewAt(v: map<Peer, Slot>, steps: seq<Step>, n: nat): map<Peer, Slot>
    requires n <= |steps|
  {
    if n == 0 then v else NextView(ViewAt(v, steps, n - 1), steps[n - 1])
  }

  lemma NextExclusive(v: map<Peer, Slot>, step: Step)
    requires Exclusive(v)
    ensures Exclusive(NextView(v, step))
  {
    if step.peer in v {
      match step
      case ClaimStep(peer, a, force, blocked, _) =>
        ClaimedExclusive(v, peer, a, force, !blocked && (a.Unspec? || !Refused(v, peer, a, force)));
      case ResetStep(peer) => ResetExclusive(v, peer);
      case DeleteStep(peer) => ResetExclusive(v, peer);
      case EstablishStep(peer) => StateExclusive(v, NextView(v, step));
      case BackupStep(peer, a, allowed, expired) =>
        if NextView(v, step) != v { BackupExclusive(v, NextView(v, step), peer, a); }
      case PromoteStep(peer, _, _, _) =>
        if !v[peer].backup.Unspec? { PromotedExclusive(v, peer); }
    }
  }

  /** In every run the enabled peers stay apart. */
  lemma {:induction false} RunExclusive(v: map<Peer, Slot>, steps: seq<Step>, n: nat)
    requires Exclusive(v) && n <= |steps|
    ensures Exclusive(ViewAt(v, steps, n))
  {
    if n > 0 {
      RunExclusive(v, steps, n - 1);
      NextExclusive(ViewAt(v, steps, n - 1), steps[n - 1]);
    }
  }

  // --------------------------------------------------- who has an address

  /** Nobody is in the way of a claim: no other enabled peer owns the address or, without force, is connected to it. */
  ghost predicate Open(v: map<Peer, Slot>, peer: Peer, a: Address, force: bool) {
    forall q :: q in v && q != peer && q.enabled ==>
      !q.Owns(a) && (force || !v[q].state.Established? || !AddressEqual(v[q].address, a))
  }

  /**
    A claim gives the peer the address exactly if nobody is in the way and the socket fits; otherwise the peer has
    none afterwards. Of the others, it changes only an enabled one that had the address, and only if it succeeds.
  */
  lemma ClaimOutcome(v: map<Peer, Slot>, peer: Peer, a: Address, force: bool, blocked: bool, reseed: bv32)
    requires peer in v && !a.Unspec?
    ensures var w := NextView(v, ClaimStep(peer, a, force, blocked, reseed));
      var ok := !blocked && Open(v, peer, a, force);
      && w.Keys == v.Keys && (w[peer].address == a <==> ok) && (!ok ==> w[peer].address.Unspec?)
      && (ok ==> w[peer].state == v[peer].state && w[peer].backup == v[peer].backup)
      && (!ok && v[peer].state.Established? ==> !w[peer].state.Established? && w[peer].backup.Unspec?)
      && forall q :: q in v && q != peer ==>
           (w[q] == v[q] || (ok && q.enabled && AddressEqual(v[q].address, a) && w[q].address.Unspec?))
  {
    assert Open(v, peer, a, force) <==> !Refused(v, peer, a, force);
  }

  /** The step takes the address of `q` away for another peer. */
  ghost predicate Takes(v: map<Peer, Slot>, step: Step, q: Peer)
    requires q in v
  {
    && step.ClaimStep? && step.peer in v && !step.blocked && AddressEqual(v[q].address, step.a)
    && (step.force || !v[q].state.Established?)
    && forall r :: r in v && r != step.peer && r.enabled ==> !r.Owns(step.a)
  }

  /** What another peer does costs an enabled peer its address exactly if it claims that address and may have it. */
  lemma LosesExactly(v: map<Peer, Slot>, step: Step, q: Peer)
    requires Exclusive(v) && q in v && q.enabled && !v[q].address.Unspec? && step.peer != q
    ensures q in NextView(v, step)
    ensures NextView(v, step)[q].address.Unspec? <==> Takes(v, step, q)
    ensures NextView(v, step)[q] == v[q] <==> !Takes(v, step, q)
  {
    if step.ClaimStep? && step.peer in v && AddressEqual(v[q].address, step.a) {
      var a := step.a;
      assert !a.Unspec?;
      forall r | r in v && r != q && r.enabled ensures !AddressEqual(v[r].address, a) {
        assert Apart(v, r, q) && Apart(v, q, r);
        AddressEqualLaws(v[r].address, a, v[q].address);
        AddressEqualLaws(v[q].address, a, v[r].address);
      }
      assert Takes(v, step, q) <==> !step.blocked && !Refused(v, step.peer, a, step.force);
    }
  }

  ghost predicate TakesAt(v: map<Peer, Slot>, steps: seq<Step>, m: nat, q: Peer)
    requires m < |steps|
  {
    steps[m].peer == q || (q in ViewAt(v, steps, m) && Takes(ViewAt(v, steps, m), steps[m], q))
  }

  /** Over any run of the others, an enabled peer keeps connection and addresses until one of them takes its address. */
  lemma {:induction false} KeepsAddress(v: map<Peer, Slot>, steps: seq<Step>, n: nat, q: Peer)
    requires Exclusive(v) && q in v && q.enabled && !v[q].address.Unspec? && n <= |steps|
    requires forall m :: 0 <= m < n ==> !TakesAt(v, steps, m, q)
    ensures q in ViewAt(v, steps, n) && ViewAt(v, steps, n)[q] == v[q]
  {
    if n > 0 {
      KeepsAddress(v, steps, n - 1, q);
      RunExclusive(v, steps, n - 1);
      assert !TakesAt(v, steps, n - 1, q);
      LosesExactly(ViewAt(v, steps, n - 1), steps[n - 1], q);
    }
  }

  /** So an established peer loses its address to nobody as long as no other peer claims it by force. */
  lemma {:induction false} EstablishedIsSafe(v: map<Peer, Slot>, steps: seq<Step>, n: nat, q: Peer)
    requires Exclusive(v) && q in v && q.enabled && v[q].state.Established? && !v[q].address.Unspec? && n <= |steps|
    requires forall m :: 0 <= m < n ==> steps[m].peer != q && !(steps[m].ClaimStep? && steps[m].force)
    ensures q in ViewAt(v, steps, n) && ViewAt(v, steps, n)[q] == v[q]
    decreases n
  {
    if n > 0 {
      EstablishedIsSafe(v, steps, n - 1, q);
      RunExclusive(v, steps, n - 1);
      LosesExactly(ViewAt(v, steps, n - 1), steps[n - 1], q);
    }
  }

  /** A reset peer has neither address nor backup; it starts over if it is enabled, and nobody else is concerned. */
  lemma ResetOutcome(v: map<Peer, Slot>, peer: Peer)
    requires peer in v && !v[peer].state.Inactive?
    ensures var w := NextView(v, ResetStep(peer));
      && w.Keys == v.Keys && (forall q :: q in v && q != peer ==> w[q] == v[q])
      && w[peer] == Slot(if peer.enabled then Pending else Inactive, Unspec, Unspec)
  {
  }

  /** The backup address a peer has after two promotions in a row is the one it had before them. */
  lemma PromotedTwice(v: map<Peer, Slot>, peer: Peer, reseed: bv32)
    requires Exclusive(v) && peer in v && peer.enabled && !v[peer].address.Unspec?
    requires !v[peer].backup.Unspec? && BackupFree(v, peer)
    ensures var step := PromoteStep(peer, true, false, reseed);
      var w := NextView(v, step);
      && w[peer].address == v[peer].backup && w[peer].backup == v[peer].address && w[peer].state == v[peer].state
      && NextView(w, step) == v
  {
    var w := Promoted(v, peer);
    forall q | q in w && q != peer && q.enabled ensures !AddressEqual(w[q].address, w[peer].backup) {
      assert Apart(v, peer, q);
      AddressEqualLaws(w[q].address, v[peer].address, Unspec);
    }
    assert Promoted(w, peer) == v;
  }

  /** What claims, handshakes and backup claims that succeed do to the peers. */
  ghost predicate Reaches(v: map<Peer, Slot>, step: Step, v': map<Peer, Slot>) {
    step.peer in v &&
    match step
    case ClaimStep(peer, a, force, blocked, _) =>
      !blocked && (a.Unspec? || !Refused(v, peer, a, force)) && v' == Claimed(v, peer, a, true)
    case EstablishStep(peer) => v' == v[peer := v[peer].(state := Established)]
    case BackupStep(peer, a, allowed, expired) =>
      allowed && BackupAllowed(v, peer, a, expired) && v' == v[peer := v[peer].(backup := a)]
    case PromoteStep(peer, usable, offloaded, _) =>
      usable && !offloaded && !v[peer].backup.Unspec? && v' == Promoted(v, peer)
    case _ => false
  }

  ghost function Two(p: Peer, q: Peer, x: Slot, y: Slot): map<Peer, Slot> {
    map[p := x, q := y]
  }

  /** A claim of an address that the other peer, which owns none, does not have goes through and changes nobody else. */
  lemma ClaimGoesThrough(p: Peer, q: Peer, a: Address, x: Slot, y: Slot)
    requires p != q && q.floating && !AddressEqual(y.address, a) && !a.Unspec?
    ensures Reaches(Two(p, q, x, y), ClaimStep(p, a, false, false, 0), Two(p, q, x.(address := a), y))
  {
    var v := Two(p, q, x, y);
    assert !Refused(v, p, a, false);
    assert Claimed(v, p, a, true) == Two(p, q, x.(address := a), y);
  }

  lemma BackupGoesThrough(p: Peer, q: Peer, b: Address, x: Slot, y: Slot)
    requires p != q && q.floating && !AddressEqual(y.address, b) && !AddressEqual(y.backup, b)
    ensures Reaches(Two(p, q, x, y), BackupStep(p, b, true, {}), Two(p, q, x.(backup := b), y))
  {
    assert BackupAllowed(Two(p, q, x, y), p, b, {});
    assert Two(p, q, x, y)[p := x.(backup := b)] == Two(p, q, x.(backup := b), y);
  }

  lemma EstablishGoesThrough(p: Peer, q: Peer, x: Slot, y: Slot)
    requires p != q
    ensures Reaches(Two(p, q, x, y), EstablishStep(p), Two(p, q, x.(state := Established), y))
  {
    assert Two(p, q, x, y)[p := x.(state := Established)] == Two(p, q, x.(state := Established), y);
  }

  lemma SwapClashes(p: Peer, q: Peer, x: Slot, y: Slot)
    requires p != q && p.enabled && q.enabled && p.floating && q.floating
    requires !x.address.Unspec? && !x.backup.Unspec? && y.address == x.backup && !AddressEqual(x.address, x.backup)
    ensures Exclusive(Two(p, q, x, y)) && !Exclusive(Promoted(Two(p, q, x, y), p))
  {
    var v := Two(p, q, x, y);
    AddressEqualLaws(x.address, x.backup, x.address);
    AddressEqualLaws(x.backup, x.backup, x.backup);
    assert Apart(v, p, q) && Apart(v, q, p);
    assert !BackupFree(v, p);
    PromotedExclusive(v, p);
  }

  /**
    It can fail in a run from the start: `p` connects and takes a backup address, `q` claims that address, which
    no check stops since claims do not look at backups, and `p` promotes it.
  */
  lemma PromotionClashes(p: Peer, q: Peer, a: Address, b: Address)
    returns (v1: map<Peer, Slot>, v2: map<Peer, Slot>, v3: map<Peer, Slot>, v4: map<Peer, Slot>, v5: map<Peer, Slot>)
    requires p != q && p.enabled && q.enabled && p.floating && q.floating
    requires !a.Unspec? && !b.Unspec? && !AddressEqual(a, b)
    ensures Reaches(Two(p, q, Slot(Pending, Unspec, Unspec), Slot(Pending, Unspec, Unspec)),
      ClaimStep(p, a, false, false, 0), v1)
    ensures Reaches(v1, EstablishStep(p), v2) && Reaches(v2, BackupStep(p, b, true, {}), v3)
    ensures Reaches(v3, ClaimStep(q, b, false, false, 0), v4) && Reaches(v4, PromoteStep(p, true, false, 0), v5)
    ensures Exclusive(v4) && !Exclusive(v5)
  {
    var start := Slot(Pending, Unspec, Unspec);
    var held := Slot(Established, a, b);
    ClaimGoesThrough(p, q, a, start, start);
    EstablishGoesThrough(p, q, Slot(Pending, a, Unspec), start);
    BackupGoesThrough(p, q, b, Slot(Established, a, Unspec), start);
    ClaimGoesThrough(q, p, b, start, held);
    assert Two(p, q, held, start) == Two(q, p, start, held);
    assert Two(p, q, held, Slot(Pending, b, Unspec)) == Two(q, p, Slot(Pending, b, Unspec), held);
    SwapClashes(p, q, held, Slot(Pending, b, Unspec));
    v1, v2 := Two(p, q, Slot(Pending, a, Unspec), start), Two(p, q, Slot(Established, a, Unspec), start);
    v3, v4 := Two(p, q, held, start), Two(p, q, held, Slot(Pending, b, Unspec));
    v5 := Promoted(v4, p);
  }

  lemma CountOne(s: set<Peer>, p: Peer)
    requires p !in s
    ensures |s + {p}| == |s| + 1
  {
  }
}
