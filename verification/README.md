# Verified model of fastd's NAT traversal, peer bookkeeping and scheduling

fastd is a VPN daemon. This project models the parts of it that are data structures and
state machines with invariants of their own, and proves those invariants in Dafny:

- `PairingHeap.dfy`: the intrusive pairing heap of the scheduler, over mutable links. `pprev`, a
  pointer to a pointer, is a location: the head of a queue, or the `next` or `children` field of an
  element.
- `PairTable.dfy`, `TaskRuns.dfy`, `Demand.dfy`, `Collection.dfy`, `Schedule.dfy`: the punch-control task
  manager. The first is its bounded table of pair states with the in-place operations, the second a step
  system over time, demand, results, metadata and launches, the third says when demand is pending in its
  runs, the fourth is the collection run that spends a packet budget and is proved to be a legal run of the
  second, the fifth any schedule of such runs and other events.
- `PortScan.dfy`: the affine scan of the UDP port space for symmetric NATs and its candidate builder.
- `Addresses.dfy`, `PeerTable.dfy`: peer addresses, the resizing hashtable that indexes them, and who
  may have which address.
- `MacTable.dfy`: the sorted table of learned MAC addresses.
- `UnknownBackoff.dfy`: the time-sliced limiter for handshakes from unknown addresses, for any interval,
  number of tables and number of slots.
- `HolePunch.dfy`: ports that two peers derive from their clocks.
- `PortMapping.dfy`, `PcpRounds.dfy`, `Leases.dfy`: the list of mapped ports with its reference counts and
  request cursors, what a round of PCP requests asks for over whole runs, and which ports have leases.
- `FanOut.dfy`: the bounded round-robin relay of address-resolution frames.
- `Sha256.dfy`, `ShaConstants.dfy`, `ShaExample.dfy`: SHA-256 (FIPS 180-4), HMAC (RFC 2104) and HKDF-Expand
  (RFC 5869), where the constants come from, and the published example of a hash.
- `Handshake.dfy`, `PunchCodec.dfy`, `Buffers.dfy`: handshake records, method negotiation and
  punch-control messages on the wire.
- `Sets.dfy`, `Basics.dfy`: a fact about finite sets, and notions that several modules share.

`dafny verify dfyconfig.toml` checks everything.

Conventions. Where the source updates objects, arrays or vectors in place, so does the model, and each
method is tied to a function or predicate of the old state about which the lemmas speak. Time is a
number of milliseconds, and the next time that never comes is the largest 64-bit value. Widths are
written out where they matter: 16-bit counters and ports, 32-bit hashes and rounds, 64-bit products.
Random numbers, seeds, what other peers announce and whether a packet could be sent are parameters.
Calls into the configured protocol (sending a packet, resetting a session) have no effect on the
modelled state. Checks at which the source stops the program as a bug are either preconditions that all
modelled callers are proved to meet, or proved unreachable. A vector is a sequence.

Five properties one might expect are false, and stated as what is true instead, each with a run that
fails:

- Promoting a backup address can give two enabled peers the same address, because a claim does not look
  at the backups of others (`PeerTable.PromotedExclusive`, `PeerTable.PromotionClashes`).
- The NAT-PMP cursor can skip an entry; the PCP cursor cannot (`PortMapping.NatpmpMaySkip`,
  `PortMapping.NatpmpSkips`, `PcpRounds.RoundAsks`).
- The references of a mapped port are not always its sockets, since their counters stop at 65535
  (`PortMapping.CounterIsRight`, `PortMapping.CounterIsShort`).
- An unknown address that is let through is not always held back afterwards: if its last slot is chosen,
  its entry ends at once. And for intervals other than the configured one, entries may be out of reach
  while they are live (`UnknownBackoff.AcceptedIsRemembered`, `UnknownBackoff.StaysUnlessLast`,
  `UnknownBackoff.LastSlotForgets`, `UnknownBackoff.SourceIsSound`, `UnknownBackoff.RemainderForgets`).
- A MAC address that shows up on the local side stays with an established peer that has no relay, for as
  long as it shows up (`MacTable.RelayedStays`, `MacTable.LocalDoesNotReclaim`).

## Model

| member | source | states |
|---|---|---|
| PairingHeap.Link | src/pqueue.c:21-31 | links a heap in front of the sibling list behind any cell: cell, `next` and both `pprev` links are consistent afterwards and nothing else changes |
| PairingHeap.Unlink | src/pqueue.c:34-40 | takes an element out of its sibling list: the cell that pointed at it points at its successor, whose `pprev` is that cell |
| PairingHeap.MergeHeaps | src/pqueue.c:48-73 | two detached heaps become one detached heap with the smaller root on top |
| PairingHeap.MergeLaws | src/pqueue.c:48-73 | merging keeps exactly the elements of both heaps, their distinctness and the heap order |
| PairingHeap.MergeSiblings | src/pqueue.c:76-93 | the recursive pairwise merge turns a linked sibling list into one detached heap |
| PairingHeap.MergePairsLaws | src/pqueue.c:76-93 | pairwise merging loses and duplicates nothing and keeps the heap order |
| PairingHeap.InsertLaws | src/pqueue.c:96-102 | a heap merged with a new element is a heap of exactly one element more |
| PairingHeap.RemovedLaws | src/pqueue.c:105-123 | removing any inner element loses exactly that element and keeps the heap a heap |
| PairingHeap.CellOf | src/pqueue.c:34-40 | `pprev` of any element of a well-formed heap is the one cell that points at it, and lies outside the part that is rebuilt |
| PairingHeap.Relink | src/pqueue.c:105-123 | rebuilding the part below an inner element and redirecting the one cell in front of it leaves the whole tree well formed |
| PairingHeap.Queue.constructor | src/pqueue.c:96-102 | an empty queue is well formed |
| PairingHeap.Queue.Insert | src/pqueue.c:96-102 | the queue holds one element more, stays a well-formed ordered heap, and no priority changes |
| PairingHeap.Queue.HeadIsMinimum | src/pqueue.c:96-123 | the head is an element of the queue with a minimal priority |
| PairingHeap.Queue.QueuedIsLinked | src/pqueue.h:30-32 | every queued element has its `pprev` set, so the membership test of the source is right for queued elements |
| PairingHeap.Remove | src/pqueue.c:105-123 | removes any element, not only the head: it is fully unlinked, the others stay a well-formed ordered heap, and an element in no queue is left alone |
| PairingHeap.Run | src/pqueue.c:96-123 | after any legal sequence of insertions and removals the heap is well formed, holds exactly the elements inserted and not removed, everything else is fully unlinked, the head is a minimum, and no check that stops the program can fire |
| Addresses.AddressEqualLaws | src/peer.c:755-782 | address equality, which ignores the scope of most IPv6 addresses, is reflexive, symmetric and transitive |
| Addresses.Hash | src/hash.h:24-31 | the byte loop computes the one-at-a-time hash of the bytes in order |
| Addresses.KnownHash | src/hash.h:24-38 | the hash of one letter is the published value of the one-at-a-time hash |
| Addresses.EqualAddressesHashEqually | src/peer_hashtable.h:22-39 | addresses that compare equal hash equally, for every initial accumulator |
| PeerTable.JenkinsRespects | src/peer_hashtable.c:54-65 | the bucket function of the source sends equal addresses to the same bucket for every seed and size |
| PeerTable.FiledWithout | src/peer_hashtable.c:87-103 | removing a peer from its bucket files exactly the other peers |
| PeerTable.FiledWith | src/peer_hashtable.c:67-85 | appending a peer to its bucket files exactly one peer more |
| PeerTable.Peers.constructor | src/peer_hashtable.c:18-28 | an empty table agrees with an empty peer list |
| PeerTable.Peers.TableRemove | src/peer_hashtable.c:87-103 | the table holds exactly the other peers, each once in its bucket, and `used` is their number |
| PeerTable.Peers.TableInsert | src/peer_hashtable.c:67-85 | the table holds the peer as well; doubling is triggered by the load and never nests, since no second doubling can be due inside a rebuild |
| PeerTable.Peers.Resize | src/peer_hashtable.c:39-52 | doubling the table loses no peer with a set address and files each once in its new bucket |
| PeerTable.Peers.Lookup | src/peer_hashtable.c:105-117 | finds a peer with an equal address exactly if the table holds one |
| PeerTable.Peer.OwnsAddress | src/peer.c:843-859 | the loop over the remotes decides whether the address is statically configured for the peer |
| PeerTable.Peers.ResetPeer | src/peer.c:499-572 | a reset peer is inactive, in no bucket, and without address and backup; nobody else changes |
| PeerTable.Peers.Reset | src/peer.c:2300-2307 | resets a peer unless it is inactive and sets it up again if it is enabled |
| PeerTable.Peers.ResetAddress | src/peer.c:833-840 | an established peer is reset, any other only loses its address |
| PeerTable.Peers.Claim | src/peer.c:2210-2297 | a claim succeeds exactly if the socket fits, nobody enabled owns the address and, without force, nobody enabled is established with it; on success the former holder loses it, on failure the claimant loses its own; enabled peers stay apart |
| PeerTable.Peers.FindConflict | src/peer.c:2233-2255 | the walk that stops at the first owner or holder |
| PeerTable.HolderAlone | src/peer.c:2233-2255 | stopping at the first holder misses nothing: nobody further down the list can own or have the address |
| PeerTable.ClaimedExclusive | src/peer.c:2210-2297 | a claim, successful or not, keeps the addresses of enabled peers distinct and away from the statically configured addresses of others |
| PeerTable.ResetExclusive | src/peer.c:2300-2313 | resets and deletions keep the enabled peers apart |
| PeerTable.Peers.Delete | src/peer.c:2310-2313 | the peer leaves the list and the table; all others keep their state, and the table still agrees with the list |
| PeerTable.Peers.ClaimBackup | src/peer.c:1966-1985 | a backup address is taken exactly if the candidate is preferred and no other enabled peer owns it, uses it or has it as a live backup; nothing else changes, and enabled peers stay apart |
| PeerTable.BackupExclusive | src/peer.c:1966-1985 | taking a backup address that nobody owns keeps the enabled peers apart |
| PeerTable.Peers.Promote | src/peer.c:2029-2117 | succeeds exactly if the backup is set, unexpired, with its socket open and the session not offloaded; it swaps the backup address in, the table follows, and enabled peers stay apart exactly if no other enabled peer uses that address |
| PeerTable.PromotedExclusive | src/peer.c:2029-2117 | promotion keeps enabled peers apart if and only if the peer is disabled or nobody else enabled uses its backup address |
| PeerTable.PromotionClashes | src/peer.c:2029-2117 | the property is false without that condition: from two fresh peers, five steps the checks of the source allow (claim, establish, backup, claim, promote) give both the same address |
| PeerTable.Peers.Run | src/peer.c:2210-2313 | every run of claims, resets, deletions, handshakes, backup claims and promotions leaves every peer as its steps say, one after the other, with table and list in agreement and enabled peers apart, and lookup finds an address exactly if some peer has it |
| PeerTable.RunExclusive | src/peer.c:1966-2313 | in every such run, seen as steps on the peers, the enabled peers stay apart |
| PeerTable.ClaimOutcome | src/peer.c:2210-2297 | a claim gives the peer the address exactly if the socket fits, no other enabled peer owns the address and, without force, none is established with it; otherwise the peer is left without one; of the others only an enabled holder of the address is touched, and only by a claim that succeeds |
| PeerTable.LosesExactly | src/peer.c:2210-2297 | what another peer does costs an enabled peer its address if and only if it is a claim of that address that nobody owns otherwise, with force or while the peer is not established; in all other cases the peer keeps state, address and backup |
| PeerTable.KeepsAddress | src/peer.c:2210-2313 | so over any run of the others an enabled peer keeps its connection until such a step |
| PeerTable.EstablishedIsSafe | src/peer.c:2210-2313 | an established peer loses its address to nobody in any run in which the others claim without force |
| PeerTable.ResetOutcome | src/peer.c:2300-2307 | a reset peer has neither address nor backup and starts over exactly if it is enabled |
| PeerTable.PromotedTwice | src/peer.c:2029-2117 | promotion exchanges address and backup: a second one undoes the first |
| PairTable.TaskManager.FindIndex | src/punch_rpc.c:910-922 | finds the first entry of an ordered id pair, exactly if there is one |
| PairTable.TaskManager.Compact | src/punch_rpc.c:935-967 | walking the vector while deleting leaves exactly the entries with scheduling state, expired windows closed, in their order |
| PairTable.TaskManager.EvictionVictim | src/punch_rpc.c:890-907 | the first entry with the lowest eviction score |
| PairTable.TaskManager.GetRuntime | src/punch_rpc.c:970-996 | the entry of the pair, after compaction and eviction if a new one is needed |
| PairTable.TaskManager.DemandNoted | src/punch_rpc.c:1036-1050 | one more demand for the pair, none for a peer with itself |
| PairTable.TaskManager.LaunchMarked | src/punch_rpc.c:1053-1061 | the pair is in flight for the punch timeout and its demand is served |
| PairTable.TaskManager.ResultMarked | src/punch_rpc.c:1064-1107 | written field by field as in the source, each kind of result leaves the windows and counters of its pair that the step system of the runs prescribes; what that means for the next launch is `ResultDecides` |
| PairTable.TaskManager.MetadataReset | src/punch_rpc.c:1011-1024 | exactly the entries that involve the peer are reset |
| PairTable.FreshIsLast | src/punch_rpc.c:970-996 | a new entry is the only one of its pair and is found at the end |
| TaskRuns.CompactedOk | src/punch_rpc.c:935-967 | compaction keeps one entry per pair, the bound and the demand numbers |
| TaskRuns.StepEffect | src/punch_rpc.c:811-1107 | for every step and pair: the table invariant holds again, a kept entry is as the step prescribes, and a lost one was lost to compaction or eviction |
| TaskRuns.LaunchEffect | src/punch_rpc.c:1053-1061 | a launch opens the window of its own pair and disturbs no other entry it keeps |
| TaskRuns.RunKeepsTable | src/punch_rpc.c:869-996 | in every run the table has at most 1024 entries, one per ordered id pair, each with its served demand not above its demand |
| TaskRuns.EvictionSparesFlights | src/punch_rpc.c:869-907 | an entry in flight is evicted only if the table is full and every entry is in flight |
| TaskRuns.EvictionOrder | src/punch_rpc.c:869-907 | an entry that still matters is evicted only from a full table, and only if every other entry is punching, then backing off, then demanded, then recently demanded with it or before it, and among equals was not touched longer ago |
| TaskRuns.WindowKept | src/punch_rpc.c:935-1061 | an open window stays as it is if and only if the step is neither new metadata, nor a result other than the two normal answers, nor an eviction |
| TaskRuns.WindowAfter | src/punch_rpc.c:1053-1061 | the window a launch opened is open until its time has passed, over any number of steps that are none of these; accepted and handshake results may come in between |
| TaskRuns.LaunchSpacing | src/punch_rpc.c:1053-1061 | two launches of a pair are at least the punch timeout apart unless new metadata, a result other than the two normal answers or an eviction came in between |
| TaskRuns.RefusalSpacing | src/punch_rpc.c:1064-1107 | after a refusal by the remote side a pair is not launched before the time the refusal gives, or for 60 seconds if it gives none, unless new metadata, another result or an eviction came in between |
| TaskRuns.AbortSpacing | src/punch_rpc.c:935-967 | after a window that ran out without a success it is not launched for 60 seconds, or until the end of the back-off it was in already, in the same way |
| Demand.OpenedBy | src/punch_rpc.c:1036-1050 | an open demand window goes back to a demand note less than 30 seconds ago, and pending demand to the note or metadata that last renewed it |
| Demand.PendingExactly | src/punch_rpc.c:1011-1061 | in every run from an empty table, demand for a pair is pending if and only if it was noted less than 30 seconds ago, the entry has not been evicted since, and the note, or metadata of one of the two peers that arrived after it, is not followed by a launch |
| Demand.LegalRuns | src/punch_rpc.c:811-1107 | the states of every legal run of the step system are a run in this sense |
| TaskRuns.RecordKept | src/punch_rpc.c:1064-1107 | an abort or failure on record is lost if and only if the pair reports busy, its entry is evicted or its 16-bit counter wraps |
| TaskRuns.AbortIsRecorded | src/punch_rpc.c:935-967 | a window that ran out without a success is on record afterwards if and only if the 16-bit counter does not wrap or a failure is on record as well |
| TaskRuns.RefusalIsRecorded | src/punch_rpc.c:1064-1107 | a refusal is on record afterwards |
| TaskRuns.StepConverges | src/punch_rpc.c:1170-1179 | each launch of a pair with a failure on record uses up a demand note or a metadata change |
| TaskRuns.BoundWhileRecorded | src/punch_rpc.c:1170-1179 | the same bound for any run in which the failure stays on record |
| TaskRuns.RecordStays | src/punch_rpc.c:1064-1107 | the failure does stay on record over any run without a busy result, an eviction or a wrapping counter |
| TaskRuns.FailedPairsConverge | src/punch_rpc.c:1064-1179 | from a failure on record until a busy result, an eviction or a wrapping counter, launches of the pair in any run are bounded by the demand notes and metadata changes that concern it, plus one if demand was unserved |
| TaskRuns.ResultDecides | src/punch_rpc.c:1064-1179 | exactly when a pair may be launched right after each kind of result |
| Collection.DecideReady | src/punch_rpc.c:1230-1306 | a pair that is judged ready is collected, out of flight, out of backoff, and has pending demand if it failed before |
| Collection.ReadyIsCollected | src/punch_rpc.c:1230-1306 | a pair that reaches the launch section is always collected, and its entry allows the launch |
| Collection.ReadyExactly | src/punch_rpc.c:1145-1306 | a pair is ready if and only if both peers are established, neither window holds it back, it has pending demand or nothing on record, a punch at one of them is wanted, and no wanted direction lacks metadata |
| Collection.StagesAre | src/punch_rpc.c:1230-3663 | which stage a visited pair is counted in, for each stage if and only if, in terms of what is observed of the pair |
| Collection.MissingIsAskedFor | src/punch_rpc.c:1157-1227 | if metadata is missing and it is time to ask for it, somebody is asked as long as the budget allows |
| Collection.Collector.RelayEndpoints | src/punch_rpc.c:3153-3265 | UDP endpoint commands: exactly the deliverable ones within the limit are sent and counted |
| Collection.Collector.RelayTcp | src/punch_rpc.c:3268-3333 | TCP endpoint commands: exactly the deliverable ones within the limit are sent and counted |
| Collection.Collector.RelayMetadata | src/punch_rpc.c:2002-2074 | metadata of both transports together stays within the limit |
| Collection.Collector.RequestMissing | src/punch_rpc.c:1182-1227 | exactly the requests that are due go out, each followed by what is known of the other peer, first to one peer and then to the other within what is left of the limit |
| Collection.Collector.LaunchPair | src/punch_rpc.c:3560-3663 | a launch stays within the budget, and the pair is marked launched exactly if something was sent |
| Collection.Collector.SortPair | src/punch_rpc.c:3510-3663 | every counted pair lands in exactly one stage, and packets sent, counters and table move by what that stage says |
| Collection.Collector.VisitPair | src/punch_rpc.c:3500-3663 | one pair: what is sent, counted, logged and marked is what the run prescribes for the pair at this point, and the budget holds |
| Collection.Collector.Run | src/punch_rpc.c:3481-3663 | a whole run stays within the packet budget and counts what it sent; unless the budget is spent it visits every pair of two established peers, each once and in order, and no other; the counters are the numbers of pairs in each stage; and it is a legal run of the step system: one compaction, then one launch per launched pair |
| Collection.TallyIs | src/punch_rpc.c:3510-3663 | the counters are the numbers of visited pairs in each stage, and pairs = missing + in-flight + blacklisted + unpunchable + waiting + demand-waiting + launched + suppressed |
| Collection.RunIsGood | src/punch_rpc.c:3481-3663 | whatever is observed of the pairs: the pairs of a run are visited in order, none is left out while packets are left, and the steps taken are legal |
| Collection.EndpointsAreServed | src/punch_rpc.c:3153-3265 | the packet limit is shared so that no endpoint is starved: with a packet for each, one that can be reached is served |
| Collection.ReadyIsLaunched | src/punch_rpc.c:3560-3663 | while packets are left, a pair that is ready when its turn comes and for which a wanted command gets through is launched, at that place of the steps |
| Collection.TracedVisit | src/punch_rpc.c:3500-3663 | a visit extends the legal run by the launches it marked |
| Collection.TracedJoin | src/punch_rpc.c:811-3663 | legal runs that follow each other are one legal run |
| Schedule.Run | src/punch_rpc.c:811-3663 | any schedule of collection runs, demand, results, metadata and passing time is one legal run of the step system, and its steps are those of the events in order |
| Schedule.OncePerRun | src/punch_rpc.c:3481-3663 | a collection run launches a pair at most once, unless its entry is evicted in between |
| Schedule.RunsAreSpaced | src/punch_rpc.c:1053-3663 | two collection runs that launch the same pair are at least the punch timeout apart unless new metadata, a result other than the two normal answers or an eviction came in between |
| PortScan.SearchStride | src/punch_rpc.c:2335-2346 | the search loop terminates from every start and yields the first acceptable stride |
| PortScan.InverseMod | src/punch_rpc.c:2335-2346 | a number not divisible by a prime has an inverse modulo it |
| PortScan.StrideInverse | src/punch_rpc.c:2335-2346 | every stride the search accepts has an inverse modulo 65535 = 3 * 5 * 17 * 257 |
| PortScan.ScanInjective | src/punch_rpc.c:2349-2353 | for every endpoint, two scan indices below 65535 never give the same port |
| PortScan.ScanSurjective | src/punch_rpc.c:2349-2353 | for every endpoint, every port from 1 to 65535 has a scan index below 65535 |
| PortScan.ScanIsFull | src/punch_rpc.c:2349-2353 | the scan repeats every 65535 indices and reaches every port |
| PortScan.TriedAll | src/punch_rpc.c:2522-2569 | 65535 consecutive indices reach every port |
| PortScan.PortAlreadySelected | src/punch_rpc.c:2511-2519 | decides whether a port is among the candidates so far |
| PortScan.AddCandidate | src/punch_rpc.c:2501-2508 | appends unless the output is full |
| PortScan.TryPort | src/punch_rpc.c:2522-2569 | afterwards the port is among the candidates, none of which is repeated |
| PortScan.AddRange | src/punch_rpc.c:2532-2544 | adds ports of the observed range only, without repetition, and all of them unless the count is reached first |
| PortScan.AddKnown | src/punch_rpc.c:2526-2544 | ahead of the scan stand the endpoint itself and then ports of the observed range, all of it if the count leaves room |
| PortScan.AddScan | src/punch_rpc.c:2546-2561 | the scan adds the port of every index it consumes, moves index and round by exactly those, and ends early only after the whole port space |
| PortScan.CandidateCount | src/punch_rpc.c:2522-2569 | there are at most 65535 candidates, and exactly that many once every port is among them |
| PortScan.BuildWith | src/punch_rpc.c:2522-2569 | a batch has exactly min(count, 65535) candidates with distinct nonzero ports, starts with the endpoint itself, has the whole observed range before all ports of the scan if the count has room for it, contains the port of every index consumed, and advances index + 65535 * round by exactly the indices consumed |
| PortScan.Build | src/punch_rpc.c:2522-2569 | the same for the scan order of the endpoint itself |
| PortScan.NextBatch | src/punch_rpc.c:2356-2365 | batches that thread the index add up |
| PortScan.ScanRun | src/punch_rpc.c:2572-2593 | a run of batches that threads index and round covers every port once 65535 indices are consumed |
| PortScan.ScanEndpoint | src/punch_rpc.c:2572-2593 | the same for every endpoint |
| PunchCodec.Build | src/punch_rpc.c:1888-1953 | the writer fails exactly for long keys, long messages and unset addresses; otherwise the buffer is the header, endpoint, scopes, extra data and key in this order |
| PunchCodec.DeltaRoundTrip | src/punch_rpc.c:1922-1922 | a port delta comes back from 16 bits if and only if it fits them as a signed number |
| PunchCodec.AddressRoundTrip | src/punch_rpc.c:188-229 | address, port and scope come back from the endpoint payload |
| PunchCodec.CompactRoundTrip | src/punch_rpc.c:232-287 | a compact address with its scope comes back |
| PunchCodec.SentIsAccepted | src/punch_rpc.c:381-429 | of the messages the sender builds, the parser accepts exactly the proper ones; what that means in bytes is `AcceptedOnWire` and `ScopedOnWire` |
| PunchCodec.AcceptedOnWire | src/punch_rpc.c:290-429 | without an embedded scope the parser accepts a message of the sender if and only if kind and extra length are 9 with 20 bytes, 10 with 44, 12 with 4, one of 2, 4, 5, 6 with 0 or 4, or any other kind with none |
| PunchCodec.ScopedOnWire | src/punch_rpc.c:381-429 | with an embedded scope it accepts exactly kind 10 with 44 bytes whose mapped address is an IPv6 address |
| PunchCodec.HeaderOnWire | src/punch_rpc.c:1909-1914 | the eight bytes of the header: magic, version by scopes, kind, and the length of the message, most significant byte first |
| PunchCodec.EndpointOnWire | src/punch_rpc.c:188-229 | key length, NAT type, family, code and address stand at bytes 8 to 11 and from 22 on |
| PunchCodec.NumbersOnWire | src/punch_rpc.c:1916-1926 | port, port range, delta and count stand at bytes 12 to 21, most significant byte first |
| PunchCodec.TailOnWire | src/punch_rpc.c:1932-1949 | behind them stand both scopes if there is any, the extra data and the key, and nothing else |
| PunchCodec.SentIsRead | src/punch_rpc.c:154-429 | every such message, scoped or not, with or without listener, is read with the same kind, key, ports, codes, extra data, address and scope |
| PunchCodec.ListenerResultIsRead | src/punch_rpc.c:3105-3149 | a listener result brings its result data, listener id and mapped address, scope included, to the receiver |
| PunchCodec.NoOtherLength | src/punch_rpc.c:392-394 | nothing shorter and nothing longer than a message with a right header is accepted in its place |
| PunchCodec.PrefixIsRejected | src/punch_rpc.c:381-429 | every strict prefix of every message the sender builds is rejected |
| Sha256.CopyWords | src/sha256.c:33-51 | copies a half block as big-endian words and pads behind the last byte; the count of bytes left goes below zero as it should |
| Sha256.LengthField | src/sha256.c:81-82 | the two length words of section 5.1.1 of FIPS 180-4 are zero and the one the source writes, for messages below 2^29 bytes |
| Sha256.SourceWords | src/sha256.c:72-82 | the words loaded for every block are the words of the padded message |
| Sha256.LoadBlock | src/sha256.c:72-82 | block k of the padded message is loaded, and the signed counter tells the last block |
| Sha256.ExtendSchedule | src/sha256.c:84-88 | the in-place loop computes the message schedule of section 6.2 of FIPS 180-4 |
| Sha256.RoundInPlace | src/sha256.c:92-108 | one round with the working variables moving up in place |
| Sha256.CompressBlock | src/sha256.c:84-111 | one block is compressed into the state |
| Sha256.HashList | src/sha256.c:53-116 | for every message under 2^29 bytes the half-block loop computes SHA-256 of the padded message |
| ShaConstants.RoundConstants | src/sha256.c:54-63 | the 64 round constants are the first 32 bits behind the binary point of the cube roots of the first 64 primes |
| ShaConstants.InitialHash | src/sha256.c:65-68 | the initial state holds those of the square roots of the first eight |
| ShaExample.AbcHash | src/sha256.c:53-116 | padding, schedule, rounds, constants and mixing functions together give the hash of "abc" that appendix B.1 of FIPS 180-2 prints |
| ShaExample.BytesOf | src/sha256.c:113-116 | a hash has its eight words in order, each most significant byte first |
| Sha256.SplitHalves | src/sha256.c:148-156 | the pointer list built for a buffer covers it in half blocks |
| Sha256.HashBuffer | src/sha256.c:148-156 | the buffer form computes SHA-256 |
| Sha256.HalvesBehindKey | src/sha256.c:159-186 | the padded key in front of a list of half blocks is a list of half blocks of the longer message |
| Sha256.HmacList | src/sha256.c:159-186 | the list form computes HMAC of section 2 of RFC 2104 for 32-byte keys |
| Sha256.HmacBuffer | src/sha256.c:232-241 | the buffer form computes HMAC |
| Sha256.OctetIs | src/hkdf_sha256.c:20-41 | the 8-bit block counter does not wrap up to block 255 |
| Sha256.Expand | src/hkdf_sha256.c:20-41 | the loop over one reused buffer computes T(1), ..., T(n) of section 2.3 of RFC 5869 for n up to 255 |
| UnknownBackoff.JenkinsRespects | src/receive.c:122-130 | for any interval, tables and slots, equal addresses use the same slot in every slice |
| UnknownBackoff.TablesDiffer | src/receive.c:122-130 | the slices that are searched each have a table of their own, as the 64-bit remainder gives it |
| UnknownBackoff.Limiter.constructor | src/receive.c:102-113 | a new limiter of any dimensions remembers nothing |
| UnknownBackoff.Limiter.Backoff | src/receive.c:176-211 | refuses exactly the addresses with a live entry among their slots, and otherwise writes the first free slot or a random one |
| UnknownBackoff.Limiter.Purge | src/receive.c:149-173 | clears the first live entry of the address |
| UnknownBackoff.NotedKeeps | src/receive.c:176-211 | for any dimensions with sound arithmetic, accepting a packet keeps every live entry in the slice its table stands for, and no address remembered twice |
| UnknownBackoff.FreshBelongs | src/receive.c:176-211 | an entry just written stands in the table of its slice and ends before that table is used for another |
| UnknownBackoff.BelongsLater | src/receive.c:122-130 | a table stands for the slice of an entry as long as the entry is live |
| UnknownBackoff.TimePasses | src/receive.c:122-130 | so does the passing of any time |
| UnknownBackoff.LiveIsFound | src/receive.c:176-211 | a live entry is found among the slots of its address |
| UnknownBackoff.AcceptedIsRemembered | src/receive.c:176-211 | an accepted address is refused right afterwards if and only if the slot chosen gives its entry any time at all |
| UnknownBackoff.ReplacedOnlyWhenFull | src/receive.c:176-211 | a live entry is replaced only if all slots of the other address are live |
| UnknownBackoff.PurgeAllows | src/receive.c:149-173 | a purged address is not refused any more, and nothing else changes |
| UnknownBackoff.RunKeeps | src/receive.c:149-211 | every run of packets, purges and passing time keeps all of this |
| UnknownBackoff.RefusedUntilTimeout | src/receive.c:176-211 | an address once remembered is refused at every later time of any run before its timeout, unless it is purged or its slot overwritten |
| UnknownBackoff.AcceptedIsRefused | src/receive.c:176-211 | an accepted address is refused in any run until the time its slot gave it, unless it is purged or its slot overwritten |
| UnknownBackoff.RefusalIsShort | src/receive.c:176-211 | an address whose packets are refused throughout a run is not refused any more once the run has taken the minimum handshake interval |
| UnknownBackoff.SourceIsSound | src/receive.c:176-211 | the arithmetic of the source is sound, so that all of this holds, if and only if the interval leaves a remainder of at most one when divided by the tables less one |
| UnknownBackoff.RemainderForgets | src/receive.c:176-211 | for every interval with a larger remainder, an address and a hash for which the limiter forgets a live entry |
| UnknownBackoff.LastSlotForgets | src/receive.c:176-211 | the last slot is reached from an unused limiter: for every interval that the tables divide and any addresses as many as tables, one address in each of the first slices fills all tables but one, and the next is let through twice at the same moment |
| UnknownBackoff.SourceForgets | src/build.h.in:178-189 | so it is with the numbers of the source and sixteen concrete addresses |
| UnknownBackoff.StaysUnlessLast | src/receive.c:195-211 | a slot gives its entry some time if and only if it is not the last one or there is a remainder |
| UnknownBackoff.SourceConstants | src/build.h.in:178-189 | 15000 milliseconds and 16 tables meet the condition |
| HolePunch.Contains | src/hole_punch.h:47-55 | linear search over the ports so far |
| HolePunch.AddBucket | src/hole_punch.h:63-79 | the loop adds the new ones among a bucket's outputs, with its limits of 16 ports, 128 tries and the room left |
| HolePunch.StatesDiffer | src/hole_punch.h:41-44 | the generator has the full period: in any 2^32 steps in a row no state comes twice, whatever the start |
| HolePunch.GeneratePorts | src/hole_punch.h:58-82 | three buckets in turn, in place |
| HolePunch.PortValid | src/hole_punch.h:85-90 | a port is valid exactly if it is generated |
| HolePunch.TurnLaws | src/hole_punch.h:63-79 | a bucket leaves none of its first sixteen outputs out unless the list ran full, and adds fewer than sixteen only if the list ran full or all 128 outputs are listed |
| HolePunch.TurnsAreGood | src/hole_punch.h:58-82 | at most sixteen distinct ports for each bucket, none from elsewhere, and with room every bucket's first sixteen outputs |
| HolePunch.GeneratedIsGood | src/hole_punch.h:58-82 | at most 48 distinct ports, all from 30000 to 49999 and among the outputs of the three buckets |
| HolePunch.SharedBucket | src/hole_punch.h:31-33 | two peers have a bucket in common if and only if their own buckets are at most two apart |
| HolePunch.ToleranceIsExact | src/hole_punch.h:31-33 | with clocks 85 seconds apart there may be none |
| HolePunch.Rendezvous | src/hole_punch.h:31-90 | for any two clocks at most 84 seconds apart some bucket's first sixteen outputs are valid on both sides |
| MacTable.CmpLaws | src/peer.c:2733-2735 | the byte comparison is a strict total order |
| MacTable.Bisect | src/peer.c:2750-2771 | bisection finds the address or the place where it belongs |
| MacTable.Squeeze | src/peer.c:529-538 | the in-place compaction keeps exactly the wanted entries in their order |
| MacTable.Filtered | src/peer.c:529-538 | compaction restricts the table to the routes that are kept |
| MacTable.Inserted | src/peer.c:2774-2774 | insertion at the place found keeps the table sorted and adds exactly one route |
| MacTable.Table.constructor | src/peer.c:2744-2774 | an empty table stands for no routes |
| MacTable.Table.Add | src/peer.c:2744-2774 | the table stays sorted and stands for the same routes with the address learned, and every route leads to the local side or an established peer; when an address moves is `AddressMoves` |
| MacTable.Table.Find | src/peer.c:2780-2789 | finds an address exactly if it has a route, with its owner |
| MacTable.Table.Cleanup | src/peer.c:2907-2922 | exactly the timed-out routes go |
| MacTable.Table.Reset | src/peer.c:529-551 | exactly the routes of the reset peer go, so none leads to a peer that is not established |
| MacTable.Table.Run | src/peer.c:529-2922 | after any run of learning, cleanup, resets and passing time the sorted vector stands for exactly the routes these steps leave |
| MacTable.RelayedStays | src/peer.c:2754-2764 | over any run that learns an address of an established peer only where the relay of the peer is, and neither resets the peer nor changes its relay, the address stays with the peer if and only if no cleanup finds it unseen for the stale time; otherwise it goes to the relay |
| MacTable.LocalDoesNotReclaim | src/peer.c:2754-2764 | the same for a peer without a relay and the local side: the missing relay compares equal to the local side, so the address does not come home while it is seen |
| MacTable.AddressMoves | src/peer.c:2754-2774 | over any run that does not learn an address from the relay of the peer it belongs to at that moment, a route of the address leads to whoever it was learned from last |
| MacTable.LearnedIsRouted | src/peer.c:2744-2922 | a learned address has a route for five minutes in any run that does not reset the peer it leads to |
| MacTable.RunInvariants | src/peer.c:529-2922 | in every run all routes lead to the local side or established peers and end within the stale time |
| MacTable.StaleIsForgotten | src/peer.c:2907-2922 | an address not learned for five minutes is forgotten by the next cleanup |
| MacTable.RouteIsKept | src/peer.c:2907-2922 | a route is lost before its timeout only with its peer |
| FanOut.EndCounts | src/send.c:303-313 | the first pass selects exactly min(limit, eligible) peers |
| FanOut.Relay.Select | src/send.c:303-313 | the first pass finds the last of the selected peers and its index |
| FanOut.BelowLimit | src/send.c:337-345 | before the last destination the limit is not reached, so the first check that stops the program cannot fire |
| FanOut.Relay.Deliver | src/send.c:323-348 | the second pass sends to exactly the selected peers, copies to all but the last and the buffer itself to the last; it ends there, so the second check that stops the program cannot be reached |
| FanOut.SendsCount | src/send.c:300-348 | a call sends exactly min(limit, eligible) messages |
| FanOut.SendsInOrder | src/send.c:323-348 | message i goes to the eligible peer with i eligible ones before it from the start on; all are copies but the last, which consumes the buffer |
| FanOut.Relay.Resolve | src/send.c:288-349 | relays exactly if the frame is one, the limit is positive and somebody is eligible; the cursor moves behind the last destination and the counters by what was sent |
| FanOut.CallProgress | src/send.c:300-318 | a call either serves all that is left of a lap or exactly `limit` more peers of it |
| FanOut.EverybodyIsReached | src/send.c:288-349 | with stable peers and eligibility, any n calls in a row with n * limit at least the number of eligible peers reach every eligible peer, wherever the cursor starts |
| FanOut.Relay.ResolveAll | src/send.c:288-349 | relaying that many frames one after the other does send to every eligible peer, wherever the cursor stands |
| Handshake.Packet.constructor | src/handshake.h:81-86 | a packet with its header and no records |
| Handshake.Packet.Extend | src/handshake.h:145-163 | patches the length field and writes the head of a record behind the others |
| Handshake.Packet.Add | src/handshake.h:166-172 | the packet holds one record more |
| Handshake.Packet.AddUint | src/handshake.h:219-230 | a number is added in the fewest bytes |
| Handshake.UintRoundTrip | src/handshake.c:66-81 | numbers come back from their bytes, and no shorter value would do |
| Handshake.ParseTlvs | src/handshake.c:426-463 | the pointer walk finds the last value of each known kind among the whole records, or nothing in a packet shorter than its length field says |
| Handshake.RecordsRoundTrip | src/handshake.c:438-460 | any sequence of records is read back from its bytes |
| Handshake.RecordsOnWire | src/handshake.h:145-172 | every record of a packet stands where the records before it end, with kind and length least significant byte first and then its value |
| Handshake.HeaderOnWire | src/handshake.h:145-163 | the header gives the length of the records, most significant byte first |
| Handshake.RecordsAreTheBytes | src/handshake.c:438-460 | any bytes are the records read from them and an end that holds no whole record |
| Handshake.LatestIsLast | src/handshake.c:453-456 | a kind has the value of its last record, and only known kinds that occur have one |
| Handshake.PacketMeansRecords | src/handshake.c:426-463 | what is parsed from a packet is, for each known kind, the value that was added last |
| Handshake.CreateMethodList | src/handshake.c:133-158 | the names with zeros between them |
| Handshake.ParseStringList | src/handshake.c:174-186 | the strings of any bytes, last one first |
| Handshake.PartsOfJoined | src/handshake.c:174-186 | a built list is read back; only an empty name at its end, which no configured method has, would be lost |
| Handshake.GetMethodByNameList | src/handshake.c:552-576 | the overwriting loop over the reversed list selects the first supported name of the list |
| Handshake.FirstSupportedIsFirst | src/handshake.c:552-576 | the selected name is offered and supported, and nothing offered before it is supported |
| Handshake.Negotiate | src/handshake.c:133-576 | of the names a sender offers, the receiver takes the first it supports, in the sender's order |
| PortMapping.CompactedLaws | src/port_mapping.c:1453-1496 | compaction keeps both pending cursors on their entries, the ports distinct and every entry in use, and leaves nothing that nobody needs |
| PortMapping.NoneIsSkipped | src/port_mapping.c:1243-1301 | after a response or timeout PCP goes on with the next entry of the list that uses it, although the entry it comes from may be deleted |
| PortMapping.NatpmpMaySkip | src/port_mapping.c:557-575 | NAT-PMP goes on with the next entry that uses it if and only if it is not the case that the entry it comes from is deleted and the one behind it uses NAT-PMP |
| PortMapping.NatpmpSkips | src/port_mapping.c:557-575 | from a start with nothing listed, two registrations, a release and a response lead to a listed port that uses NAT-PMP, has no lease, and is not asked for |
| PortMapping.Mapping.constructor | src/port_mapping.c:1855-1882 | an empty list is in order, and nothing is counted |
| PortMapping.Mapping.Recompute | src/port_mapping.c:188-201 | the global flags are those of the entries |
| PortMapping.Mapping.Compact | src/port_mapping.c:1453-1496 | the deleting walk computes the compacted list and cursors |
| PortMapping.Mapping.AddFixed | src/port_mapping.c:280-302 | only the entry of the configured port changes, and it is created if need be |
| PortMapping.FixedIsListed | src/port_mapping.c:280-302 | a configured port is listed for all its protocols |
| PortMapping.Mapping.AddReference | src/port_mapping.c:305-331 | one reference more for each requested protocol, as far as the 16-bit counters go |
| PortMapping.Mapping.Request | src/port_mapping.c:1166-1190 | compaction, then a request for the first entry from an index on that uses the protocol; the other protocol's cursor stays on its entry |
| PortMapping.Mapping.HandlePcpTimeout | src/port_mapping.c:1193-1226 | does what the step system prescribes for a timeout: starts a round, hands over from an entry that no longer uses PCP, retransmits, or gives up; what that means is `TimerStarts`, `TimerStartsOnly` and `SentAgainFourTimes` |
| PortMapping.Mapping.HandlePcpResponse | src/port_mapping.c:1243-1301 | a response to the pending request moves on to the next entry that uses PCP; any other leaves the cursor alone |
| PortMapping.Mapping.HandleNatpmp | src/port_mapping.c:526-604 | NAT-PMP events keep the list in order and PCP's cursor on its port |
| PortMapping.Mapping.Register | src/port_mapping.c:1931-1944 | a socket is registered exactly if it is mappable, new, has a port and some protocol is requested, with full counters as well; a pending PCP request stays on its port; the whole new state is given |
| PortMapping.Mapping.Release | src/port_mapping.c:2005-2027 | the socket's references go as far as the counters hold any, unused entries with them, and PCP's cursor stays on its port |
| PortMapping.Mapping.Run | src/port_mapping.c:176-2027 | after any run the references of every entry are what the counter of its port holds, every counted port is listed, the backend flags are fixed-or-referenced, ports are distinct, pending cursors stand in the list, and every entry is in use or waited for; the states passed through are the ones the steps prescribe, all of them in this order |
| PortMapping.CounterIsRight | src/port_mapping.c:305-2027 | after any run of registrations and releases, the counter of a port is never above the number of its registered sockets, and equal to it if and only if that number never went past 65535 since it was last zero |
| PortMapping.CounterIsShort | src/port_mapping.c:305-331 | any number of registrations past 65535 on one port does reach the failing side: the counter stops at 65535 |
| PortMapping.Mapping.ReferencesAreSockets | src/port_mapping.c:305-2027 | so the references of an entry are the registered sockets on its port under exactly that condition |
| PortMapping.Mapping.RegisteredIsListed | src/port_mapping.c:305-2027 | and under it every registered socket is on the list |
| PcpRounds.StepServes | src/port_mapping.c:526-2027 | one step of any kind: a port that uses PCP and stands behind the pending request is asked for next or still stands behind it, if and only if the step does not end the round because a request cannot be sent or the retries are used up |
| PcpRounds.WaitingIsServed | src/port_mapping.c:526-2027 | so over any run, up to any later state: it still waits or was asked for in between |
| PcpRounds.RoundStarts | src/port_mapping.c:1166-1190 | whatever step starts a round, every port that uses PCP is asked for first or stands behind |
| PcpRounds.TimerStarts | src/port_mapping.c:1193-1195 | without a request pending, the timer starts a round in which every port that uses PCP is asked for or stands behind, unless the request cannot be sent |
| PcpRounds.TimerStartsOnly | src/port_mapping.c:1193-1195 | and if it starts one, the request is for a port that uses PCP |
| PcpRounds.RegistrationStarts | src/port_mapping.c:1931-1944 | a registration that asks for PCP starts a round for the new port and all that use PCP, if PCP is set up or can be and the request can be sent |
| PcpRounds.SentAgainFourTimes | src/port_mapping.c:1207-1226 | an unanswered request is sent again four times with nothing else changed, and then the round is given up |
| PcpRounds.RoundAsks | src/port_mapping.c:526-2027 | no round passes a port over: between its start and its end, a port that used PCP all the time was asked for, unless the round was ended early |
| PcpRounds.RunRounds | src/port_mapping.c:526-2027 | every run of the mapping, from any valid state, serves its waiting ports in this way |
| Leases.StepLeases | src/port_mapping.c:506-1345 | what every kind of step does to the leases of every port: grants count for ports that still use the protocol, UPnP leases are asked for once the service is known, a port that loses its last user loses its leases, and nothing else changes them |
| Leases.RunLeases | src/port_mapping.c:506-2027 | so it is over every run, and no port without users has a lease |
| Leases.NatpmpStarts | src/port_mapping.c:526-604 | without a request pending, NAT-PMP asks for the first entry that uses it if and only if there is one and the request can be sent |

## Left out

- Sockets, polling, TUN/TAP, DNS, shell commands, logging, options, configuration files and status output: plumbing without invariants of its own.
- libnice, libnatpmp, miniupnpc, libcurl, json-c and zstd: foreign code; their outcomes are parameters.
- The ec25519-fhmqvc protocol, the encryption methods and `socket.c`: their calls are taken to have no effect on the modelled state.
- Scan coverage at relay level: the relay rebuilds the active address with a zero scan index (src/punch_rpc.c:576-583), so coverage is proved where index and round are threaded, in the builders.
- The other candidate forms of src/punch_rpc.c:2572-2593 (one endpoint, easy-symmetric prediction): they keep no state between batches, so what is proved of runs has no counterpart there.
- Collection.Collector.Run: the time of the next retry and the timestamps of the last announcements are not modelled, because no decision within a run depends on them; a run cut short by a return is not modelled either.
- PeerTable.Peers.ClaimBackup: the candidate preferences of src/peer.c:1905-1965 are one parameter, since only the refusals in the walk over the other peers matter for who has which address.
- PeerTable.Peers.Promote: the swap of timers and path flags is not modelled.
- PeerTable.Peers.Run: promotions are steps of a run only under the condition for which they are proved harmless.
- PortMapping.Mapping.HandlePcpResponse: whether a response carries the nonce of its entry is a parameter, as are the lease's lifetime and external address.
- PortMapping.Mapping.Activate: UPnP discovery runs in a thread of its own; its result is a step.
- Handshake.Packet.Extend: requires room in a buffer of at most 65535 bytes of records, as all handshake buffers have; the source stops the program otherwise.
- Handshake.CreateMethodList: requires a nonempty list, as its only caller does.
- Handshake.GetMethodByNameList: a configured method name is taken to be known to the daemon, which the source checks when it starts.
- Hash and slot distribution: the Jenkins hash is used as a fixed function, and nothing is claimed about how evenly it spreads.
- HolePunch.GeneratePorts: time is unbounded; the overflow of the subtraction next to the smallest 64-bit time is not modelled.
- SHA-256 for messages of 2^29 bytes and more: the source's length field has 32 bits.
- ShaConstants.RoundConstants: the first 64 primes are listed, and that they are these is not proved.
- The NULL-terminated argument lists of src/sha256.c:119-145 and 189-229: they only collect pointers for the list forms.
