/**
  One collection run of the punch-control relay.

  The run visits every pair of peers, sorts it into a stage, and for pairs that
  are ready sends punch commands in both directions, all within one packet
  budget. What the peers look like when a pair is visited, and whether a message
  can be sent, is input (`Visit`, and the attempts in the plans).
*/
module Collection {
  import opened Basics
  import opened PairTable
  import opened TaskRuns

  // -------------------------------------------------------- the state of a pair

  /** What the run reads of a peer: established, has punchable metadata, has only unpunchable metadata, ... */
  datatype Peer = Peer(
    id: nat, established: bool, metadata: bool, unpunchable: bool, needsDest: bool, freshNat: bool,
    due: bool)

  datatype PairState = PairState(
    established: bool, metadataA: bool, metadataB: bool, dueA: bool, dueB: bool,
    collected: bool, waiting: bool, demandWaiting: bool, settled: bool, inFlight: bool, backoff: bool,
    recentDemand: bool, pendingDemand: bool, missing: bool, unpunchable: bool)

  const NO_STATE := PairState(false, false, false, false, false, false, false, false, false, false, false,
                             false, false, false, false)

  predicate NeedsMissing(subject: Peer, dest: Peer, wanted: bool) {
    wanted && subject.needsDest && !dest.freshNat
  }

  /** What is known of the pair from its runtime entry and the two peers, before anything is decided. */
  function Observed(t: Table, now: int, a: Peer, b: Peer): PairState {
    var k := PairKey(a.id, b.id);
    var has := Has(t, k);
    var recent := has && Active(Entry(t, k).demandUntil, now);
    var pending := recent && Entry(t, k).demandSeq != Entry(t, k).servedSeq;
    NO_STATE.(
      established := true,
      inFlight := has && Active(Entry(t, k).inFlight, now),
      backoff := has && Active(Entry(t, k).backoff, now),
      recentDemand := recent,
      pendingDemand := pending,
      settled := has && Entry(t, k).successes > 0 && !pending,
      metadataA := a.metadata, metadataB := b.metadata,
      unpunchable := !a.metadata && !b.metadata && (a.unpunchable || b.unpunchable),
      dueA := a.due, dueB := b.due)
  }

  /** Marks the pair if metadata is missing that a wanted direction needs, or that both peers lack. */
  function WithMissing(s: PairState, a: Peer, b: Peer): PairState {
    var wantA := s.metadataA && (s.dueA || s.pendingDemand);
    var wantB := s.metadataB && (s.dueB || s.pendingDemand);
    s.(missing := (!s.unpunchable && !s.metadataA && !s.metadataB) ||
                  NeedsMissing(a, b, wantA) || NeedsMissing(b, a, wantB))
  }

  /** Whether a pair outside its windows waits or is collected; `failed` says that an abort or failure is on record. */
  function Settle(s: PairState, failed: bool): PairState {
    if s.unpunchable then s.(waiting := true)
    else if failed && !s.pendingDemand then s.(waiting := true, demandWaiting := true)
    else if s.settled then s.(waiting := true)
    else if !s.metadataA && !s.metadataB then s
    else
      var collected := s.pendingDemand || (s.metadataA && s.dueA) || (s.metadataB && s.dueB);
      s.(collected := collected, waiting := !collected)
  }

  function Decide(s: PairState, a: Peer, b: Peer, failed: bool): PairState {
    if s.inFlight then s.(waiting := true)
    else if s.backoff then s
    else Settle(WithMissing(s, a, b), failed)
  }

  lemma DecideReady(s: PairState, a: Peer, b: Peer, failed: bool)
    ensures Decide(s, a, b, failed).established == s.established
    ensures Ready(Decide(s, a, b, failed)) ==> Decide(s, a, b, failed).collected
    ensures Ready(Decide(s, a, b, failed)) ==> !s.inFlight && !s.backoff && !s.settled && (failed ==> s.pendingDemand)
  {
  }

  function Evaluate(t: Table, now: int, a: Peer, b: Peer): PairState {
    if !(a.established && b.established) then NO_STATE
    else Decide(Observed(t, now, a, b), a, b, Recorded(t, PairKey(a.id, b.id)))
  }

  /** None of the tests that pass a pair over applies to it. */
  predicate Ready(s: PairState) {
    s.established && !s.missing && !s.inFlight && !s.backoff && !s.unpunchable && !s.waiting
  }

  /** A pair that reaches the launch section is always collected, and its entry allows the launch. */
  lemma ReadyIsCollected(t: Table, now: int, a: Peer, b: Peer)
    ensures Evaluate(t, now, a, b).established == (a.established && b.established)
    ensures Ready(Evaluate(t, now, a, b)) ==>
      Evaluate(t, now, a, b).collected && MayLaunch(t, now, PairKey(a.id, b.id))
  {
    DecideReady(Observed(t, now, a, b), a, b, Recorded(t, PairKey(a.id, b.id)));
  }

  /** Demand for the pair that was noted recently and that no launch has served. */
  predicate Demands(t: Table, now: int, k: Key) {
    Has(t, k) && PendingDemand(Entry(t, k), now)
  }

  /** A punch at the peer is wanted: its metadata is known, and it is due or there is demand. */
  predicate Wanted(p: Peer, demand: bool) {
    p.metadata && (p.due || demand)
  }

  /** What is observed of a pair of established peers, before anything is decided. */
  ghost predicate Plain(s: PairState, a: Peer, b: Peer) {
    && s.established && !s.missing && !s.waiting && !s.collected && !s.demandWaiting
    && s.metadataA == a.metadata && s.metadataB == b.metadata && s.dueA == a.due && s.dueB == b.due
    && s.unpunchable == (!a.metadata && !b.metadata && (a.unpunchable || b.unpunchable))
    && (s.pendingDemand ==> !s.settled)
  }

  lemma ObservedIs(t: Table, now: int, a: Peer, b: Peer)
    ensures var s, k := Observed(t, now, a, b), PairKey(a.id, b.id);
      && Plain(s, a, b) && s.pendingDemand == Demands(t, now, k)
      && (MayLaunch(t, now, k) <==>
          !s.inFlight && !s.backoff && !s.settled && (Recorded(t, k) ==> s.pendingDemand))
  {
  }

  /** Metadata of the other peer is lacking for a punch that is wanted. */
  predicate Lacks(a: Peer, b: Peer, demand: bool) {
    (Wanted(a, demand) && a.needsDest && !b.freshNat) || (Wanted(b, demand) && b.needsDest && !a.freshNat)
  }

  lemma DecideExactly(s: PairState, a: Peer, b: Peer, failed: bool)
    requires Plain(s, a, b)
    ensures Ready(Decide(s, a, b, failed)) <==>
      && !s.inFlight && !s.backoff && !s.settled && (failed ==> s.pendingDemand)
      && (Wanted(a, s.pendingDemand) || Wanted(b, s.pendingDemand)) && !Lacks(a, b, s.pendingDemand)
  {
  }

  /**
    Exactly when a pair is ready: nothing in its entry holds it back, a punch at one of its peers is wanted, and
    nothing is lacking for that.
  */
  lemma ReadyExactly(t: Table, now: int, a: Peer, b: Peer)
    ensures var k := PairKey(a.id, b.id);
      var demand := Demands(t, now, k);
      Ready(Evaluate(t, now, a, b)) <==>
        && a.established && b.established && MayLaunch(t, now, k)
        && (Wanted(a, demand) || Wanted(b, demand)) && !Lacks(a, b, demand)
  {
    ObservedIs(t, now, a, b);
    DecideExactly(Observed(t, now, a, b), a, b, Recorded(t, PairKey(a.id, b.id)));
  }

  // --------------------------------------------------------------- the helpers

  /** One message to one candidate: skipped because of a back-off, delivered, or refused by the control channel. */
  datatype Attempt = Skipped(until: int) | Delivered | Refused

  /** The candidates of one endpoint; `count` is what the command would emit with no limit. */
  datatype EndpointPlan = EndpointPlan(pass: bool, count: nat, attempts: seq<Attempt>)

  /** Commands in one direction; `udp` and `tcp` say whether all the conditions for the transport hold. */
  datatype Direction = Direction(udp: bool, endpoints: seq<EndpointPlan>, tcp: bool, tcpAttempts: seq<Attempt>)

  /** Relaying one peer's metadata to another: a primary message and further endpoints, per transport. */
  datatype Metadata = Metadata(udp: bool, udpFirst: bool, udpRest: seq<bool>, tcp: bool, tcpFirst: bool,
      tcpRest: seq<bool>)

  datatype Visit = Visit(
    a: Peer, b: Peer, askA: bool, askB: bool, aToB: Direction, bToA: Direction,
    metadataA: Metadata, metadataB: Metadata, stableA: bool, stableB: bool)

  function CountDelivered(attempts: seq<Attempt>): nat {
    if attempts == [] then 0
    else CountDelivered(attempts[..|attempts| - 1]) + One(attempts[|attempts| - 1].Delivered?)
  }

  function CountSkipped(attempts: seq<Attempt>): nat {
    if attempts == [] then 0
    else CountSkipped(attempts[..|attempts| - 1]) + One(attempts[|attempts| - 1].Skipped?)
  }

  function CountTrue(flags: seq<bool>): nat {
    if flags == [] then 0 else CountTrue(flags[..|flags| - 1]) + One(flags[|flags| - 1])
  }

  /** How many candidates an endpoint gets: a fair share of the limit among `left` endpoints, rounded up. */
  function Share(plan: EndpointPlan, left: nat, limit: nat): (n: nat)
    requires left > 0
    ensures n <= limit && n <= |plan.attempts|
  {
    var share := Min((limit + left - 1) / left, Min(plan.count, limit));
    if plan.pass then 0 else Min(|plan.attempts|, share)
  }

  /** The messages sent for a list of endpoints within a limit on the candidates. */
  function EndpointsSent(plans: seq<EndpointPlan>, limit: nat): (n: nat)
    ensures n <= limit
  {
    if plans == [] || limit == 0 then 0
    else
      var n := Share(plans[0], |plans|, limit);
      DeliveredAtMost(plans[0].attempts[..n]);
      CountDelivered(plans[0].attempts[..n]) + EndpointsSent(plans[1..], limit - n)
  }

  /** The candidates passed over because of a back-off. */
  function EndpointsSkipped(plans: seq<EndpointPlan>, limit: nat): nat {
    if plans == [] || limit == 0 then 0
    else
      var n := Share(plans[0], |plans|, limit);
      CountSkipped(plans[0].attempts[..n]) + EndpointsSkipped(plans[1..], limit - n)
  }

  /** What the endpoints from an index on send and skip within a limit. */
  type Left = (nat, nat) -> (nat, nat)

  ghost predicate LeftAt(left: Left, plans: seq<EndpointPlan>, i: nat, room: nat) {
    i <= |plans| ==> left(i, room) == (EndpointsSent(plans[i..], room), EndpointsSkipped(plans[i..], room))
  }

  ghost predicate IsLeft(left: Left, plans: seq<EndpointPlan>) {
    forall i: nat, room: nat {:trigger LeftAt(left, plans, i, room)} :: LeftAt(left, plans, i, room)
  }

  /** What has been sent and skipped, with what the endpoints from i on will add, is the whole. */
  ghost predicate Remaining(left: Left, limit: nat, i: nat, room: nat, sent: nat, skipped: nat) {
    sent + left(i, room).0 == left(0, limit).0 && skipped + left(i, room).1 == left(0, limit).1
  }

  lemma NothingRemains(left: Left, plans: seq<EndpointPlan>, i: nat, room: nat)
    requires IsLeft(left, plans) && i <= |plans| && (i == |plans| || room == 0)
    ensures left(i, room) == (0, 0)
  {
    assert LeftAt(left, plans, i, room);
  }

  lemma EndpointDone(left: Left, plans: seq<EndpointPlan>, i: nat, room: nat, n: nat)
    requires IsLeft(left, plans) && i < |plans| && room > 0 && n == Share(plans[i], |plans| - i, room)
    ensures left(i, room).0 == CountDelivered(plans[i].attempts[..n]) + left(i + 1, room - n).0
    ensures left(i, room).1 == CountSkipped(plans[i].attempts[..n]) + left(i + 1, room - n).1
  {
    assert LeftAt(left, plans, i, room) && LeftAt(left, plans, i + 1, room - n);
    assert plans[i..][0] == plans[i] && plans[i..][1..] == plans[i + 1..];
  }

  lemma DeliveredAtMost(attempts: seq<Attempt>)
    ensures CountDelivered(attempts) <= |attempts|
  {
  }

  function TcpSent(open: bool, attempts: seq<Attempt>, limit: nat): nat {
    if open then Min(limit, CountDelivered(attempts)) else 0
  }

  function MetadataSent(m: Metadata, limit: nat): nat {
    Min(limit, (if m.udp then One(m.udpFirst) + CountTrue(m.udpRest) else 0) +
               (if m.tcp then One(m.tcpFirst) + CountTrue(m.tcpRest) else 0))
  }

  function DirectionSent(d: Direction, limit: nat): (n: nat)
    ensures n <= limit
  {
    var udp := if d.udp then EndpointsSent(d.endpoints, limit) else 0;
    udp + TcpSent(d.tcp, d.tcpAttempts, limit - udp)
  }

  /** The candidates passed over in one direction, if the limit is not reached. */
  function DirectionSkipped(d: Direction, limit: nat): nat {
    (if d.udp then EndpointsSkipped(d.endpoints, limit) else 0) + (if d.tcp then CountSkipped(d.tcpAttempts) else 0)
  }

  /** Demand, or a direction that is due, makes it worth asking for what is missing. */
  predicate MissingDue(v: Visit, s: PairState) {
    s.missing && (s.recentDemand || NeedsMissing(v.a, v.b, s.metadataA && s.dueA) ||
                  NeedsMissing(v.b, v.a, s.metadataB && s.dueB))
  }

  /** The peer is asked if nothing is known of it, or if the other needs its NAT type for a direction that is wanted. */
  predicate AsksFor(known: bool, other: bool, due: bool, demand: bool, subject: Peer, dest: Peer) {
    !known || NeedsMissing(subject, dest, other && (due || demand))
  }

  /** A request, and behind it what is known of the other peer. */
  function Asked(open: bool, known: bool, m: Metadata, limit: nat): (n: nat)
    ensures n <= limit
  {
    if !open || limit == 0 then 0 else 1 + if known then MetadataSent(m, limit - 1) else 0
  }

  /** What is sent to complete a pair: to the first peer, then to the second within what is left. */
  function MissingSent(v: Visit, s: PairState, limit: nat): (n: nat)
    ensures n <= limit
  {
    if !MissingDue(v, s) then 0
    else
      var askA := v.askA && AsksFor(s.metadataA, s.metadataB, s.dueB, s.pendingDemand, v.b, v.a);
      var askB := v.askB && AsksFor(s.metadataB, s.metadataA, s.dueA, s.pendingDemand, v.a, v.b);
      var first := Asked(askA, s.metadataB, v.metadataB, limit);
      first + Asked(askB, s.metadataA, v.metadataA, limit - first)
  }

  lemma {:induction false} DeliveredPrefix(attempts: seq<Attempt>, n: nat)
    requires n <= |attempts|
    ensures CountDelivered(attempts[..n]) <= CountDelivered(attempts)
    ensures n == |attempts| ==> CountDelivered(attempts[..n]) == CountDelivered(attempts)
  {
    if n == |attempts| {
      assert attempts[..n] == attempts;
    } else {
      DeliveredPrefix(attempts[..|attempts| - 1], n);
      assert attempts[..|attempts| - 1][..n] == attempts[..n];
    }
  }

  lemma {:induction false} TruePrefix(flags: seq<bool>, n: nat)
    requires n <= |flags|
    ensures CountTrue(flags[..n]) <= CountTrue(flags)
    ensures n == |flags| ==> CountTrue(flags[..n]) == CountTrue(flags)
  {
    if n == |flags| {
      assert flags[..n] == flags;
    } else {
      TruePrefix(flags[..|flags| - 1], n);
      assert flags[..|flags| - 1][..n] == flags[..n];
    }
  }

  /** The table after a pair was marked as launched for none, one or both directions. */
  function Marked(t: Table, now: int, k: Key, marks: nat): Table {
    if marks == 0 then t
    else if marks == 1 then MarkLaunched(t, now, k)
    else MarkLaunched(MarkLaunched(t, now, k), now, k)
  }

  // ------------------------------------------------------------- one visit

  predicate WantsA(s: PairState) {
    s.metadataA && (s.dueA || s.pendingDemand)
  }

  predicate WantsB(s: PairState) {
    s.metadataB && (s.dueB || s.pendingDemand)
  }

  /** The commands sent about the first peer, and then within what is left about the second. */
  function CommandsA(v: Visit, s: PairState, room: nat): (n: nat)
    ensures n <= room
  {
    if WantsA(s) then DirectionSent(v.aToB, room) else 0
  }

  function CommandsB(v: Visit, s: PairState, room: nat): (n: nat)
    ensures n <= room
  {
    if WantsB(s) then DirectionSent(v.bToA, room) else 0
  }

  function Commands(v: Visit, s: PairState, room: nat): (n: nat)
    ensures n <= room
  {
    var first := CommandsA(v, s, room);
    first + CommandsB(v, s, room - first)
  }

  /** How many of the directions got commands through. */
  function Marks(v: Visit, s: PairState, room: nat): (n: nat)
    ensures n <= 2 && (n > 0 <==> Commands(v, s, room) > 0)
  {
    var first := CommandsA(v, s, room);
    One(first > 0) + One(CommandsB(v, s, room - first) > 0)
  }

  function SkippedBy(v: Visit, s: PairState, room: nat): nat {
    (if WantsA(s) then DirectionSkipped(v.aToB, room) else 0) +
    (if WantsB(s) then DirectionSkipped(v.bToA, room) else 0)
  }

  /** What a launch sends: the commands, and after them stable metadata of both peers. */
  function LaunchSent(v: Visit, s: PairState, room: nat): (n: nat)
    ensures n <= room && (n > 0 <==> Commands(v, s, room) > 0)
  {
    var commands := Commands(v, s, room);
    if commands == 0 then 0
    else
      var n := commands + if v.stableA then MetadataSent(v.metadataA, room - commands) else 0;
      n + if v.stableB then MetadataSent(v.metadataB, room - n) else 0
  }

  /** What becomes of a visited pair whose peers are both established. */
  datatype Stage =
    Missing | InFlight | BackedOff | Unpunchable | Settled | DemandWaiting | Waiting | Launched | AllSkipped | NoneSent

  function StageOf(v: Visit, s: PairState, room: nat): Stage {
    if s.missing then Missing
    else if s.inFlight then InFlight
    else if s.backoff then BackedOff
    else if s.unpunchable then Unpunchable
    else if s.waiting then (if s.settled then Settled else if s.demandWaiting then DemandWaiting else Waiting)
    else if Commands(v, s, room) > 0 then Launched
    else if SkippedBy(v, s, room) > 0 then AllSkipped
    else NoneSent
  }

  function SentFor(v: Visit, s: PairState, room: nat): (n: nat)
    ensures n <= room
  {
    if s.missing then MissingSent(v, s, room) else if Ready(s) then LaunchSent(v, s, room) else 0
  }

  function MarksFor(v: Visit, s: PairState, room: nat): (n: nat)
    ensures n <= 2 && (n > 0 ==> Ready(s))
    ensures s.established ==> (n > 0 <==> StageOf(v, s, room) == Launched)
  {
    if Ready(s) then Marks(v, s, room) else 0
  }

  /** What a visit does: the packets it sends, the stage of the pair, and in how many directions it launches. */
  datatype Effect = Effect(sent: nat, stage: Stage, marks: nat)

  function EffectOf(v: Visit, s: PairState, room: nat): Effect {
    Effect(SentFor(v, s, room), StageOf(v, s, room), MarksFor(v, s, room))
  }

  /** What the stages of a visited pair mean, in terms of what is observed of it. */
  lemma StagesAre(s: PairState, v: Visit, failed: bool, room: nat)
    requires Plain(s, v.a, v.b)
    ensures
      var stage := StageOf(v, Decide(s, v.a, v.b, failed), room);
      var free, known := !s.inFlight && !s.backoff, v.a.metadata || v.b.metadata;
      var lacks := if known then Lacks(v.a, v.b, s.pendingDemand) else !s.unpunchable;
      && (stage == InFlight <==> s.inFlight) && (stage == BackedOff <==> s.backoff && !s.inFlight)
      && (stage == Missing <==> free && lacks) && (stage == Unpunchable <==> free && s.unpunchable)
      && (stage == Settled <==> free && known && !lacks && s.settled)
      && (stage == DemandWaiting <==> free && known && !lacks && failed && !s.pendingDemand && !s.settled)
      && (stage == Launched || stage == AllSkipped || stage == NoneSent <==> Ready(Decide(s, v.a, v.b, failed)))
  {
    DecideStages(s, v, failed, Decide(s, v.a, v.b, failed), room);
  }

  lemma DecideStages(s: PairState, v: Visit, failed: bool, d: PairState, room: nat)
    requires Plain(s, v.a, v.b) && d == Decide(s, v.a, v.b, failed)
    ensures d.established && d.inFlight == s.inFlight && d.backoff == s.backoff && d.settled == s.settled
    ensures d.unpunchable == s.unpunchable && (s.inFlight || s.backoff ==> !d.missing)
    ensures !s.inFlight && !s.backoff ==>
      && d.missing == (if v.a.metadata || v.b.metadata then Lacks(v.a, v.b, s.pendingDemand) else !s.unpunchable)
      && d.demandWaiting == (!s.unpunchable && failed && !s.pendingDemand)
      && (s.settled || d.demandWaiting ==> d.waiting)
  {
    MissingIs(s, v.a, v.b);
  }

  lemma MissingIs(s: PairState, a: Peer, b: Peer)
    requires Plain(s, a, b)
    ensures WithMissing(s, a, b) ==
      s.(missing := if a.metadata || b.metadata then Lacks(a, b, s.pendingDemand) else !s.unpunchable)
  {
  }

  /** If something is missing and it is time to ask for it, somebody is asked. */
  lemma MissingIsAskedFor(s: PairState, v: Visit, failed: bool, room: nat)
    requires Plain(s, v.a, v.b) && MissingDue(v, Decide(s, v.a, v.b, failed)) && v.askA && v.askB && room > 0
    ensures MissingSent(v, Decide(s, v.a, v.b, failed), room) > 0
  {
    DecideStages(s, v, failed, Decide(s, v.a, v.b, failed), room);
  }

  /** The counters of a run. */
  datatype Tally = Tally(pairs: nat, collected: nat, launched: nat, waiting: nat, demandWaiting: nat, inFlight: nat,
      missing: nat, unpunchable: nat, blacklisted: nat, suppressed: nat)
  {
    /** Every counted pair is in exactly one stage. */
    predicate Balanced() {
      pairs == missing + inFlight + blacklisted + unpunchable + waiting + demandWaiting + launched + suppressed
    }
  }

  const NO_PAIRS := Tally(0, 0, 0, 0, 0, 0, 0, 0, 0, 0)

  function Counted(t: Tally, stage: Stage): Tally {
    var t := t.(pairs := t.pairs + 1);
    match stage
    case Missing => t.(missing := t.missing + 1)
    case InFlight => t.(inFlight := t.inFlight + 1)
    case BackedOff => t.(blacklisted := t.blacklisted + 1)
    case Unpunchable => t.(unpunchable := t.unpunchable + 1)
    case Settled => t.(waiting := t.waiting + 1)
    case DemandWaiting => t.(demandWaiting := t.demandWaiting + 1)
    case Waiting => t.(waiting := t.waiting + 1)
    case Launched => t.(collected := t.collected + 1, launched := t.launched + 1)
    case AllSkipped => t.(collected := t.collected + 1, blacklisted := t.blacklisted + 1)
    case NoneSent => t.(collected := t.collected + 1, suppressed := t.suppressed + 1)
  }

  class Collector {
    const tasks: TaskManager
    const maxPackets: nat
    var tx: nat  // control messages sent
    var tally: Tally

    constructor (tasks: TaskManager, maxPackets: nat)
      ensures this.tasks == tasks && this.maxPackets == maxPackets && tx == 0
    {
      this.tasks, this.maxPackets, tx, tally := tasks, maxPackets, 0, NO_PAIRS;
    }

    /** Sends the punch commands for one peer's endpoints to another peer. */
    method RelayEndpoints(open: bool, plans: seq<EndpointPlan>, limit: nat) returns (sent: nat, skipped: nat)
      modifies this`tx
      ensures sent == (if open then EndpointsSent(plans, limit) else 0) && tx == old(tx) + sent
      ensures skipped == if open then EndpointsSkipped(plans, limit) else 0
    {
      sent, skipped := 0, 0;
      if !open || limit == 0 {
        return;
      }
      ghost var left: Left := (i: nat, room: nat) =>
        if i <= |plans| then (EndpointsSent(plans[i..], room), EndpointsSkipped(plans[i..], room)) else (0, 0);
      sent, skipped := RelayAll(left, plans, limit);
      assert LeftAt(left, plans, 0, limit) && plans[0..] == plans;
    }

    method RelayAll(ghost left: Left, plans: seq<EndpointPlan>, limit: nat) returns (sent: nat, skipped: nat)
      requires IsLeft(left, plans)
      modifies this`tx
      ensures (sent, skipped) == left(0, limit) && tx == old(tx) + sent
    {
      sent, skipped := 0, 0;
      var generated := 0;
      var i := 0;
      while i < |plans| && generated < limit
        invariant 0 <= i <= |plans| && generated <= limit && tx == old(tx) + sent
        invariant Remaining(left, limit, i, limit - generated, sent, skipped)
      {
        var n, delivered, backedOff := RelayOne(left, plans, i, limit - generated);
        generated := generated + n;
        sent, skipped := sent + delivered, skipped + backedOff;
        i := i + 1;
      }
      NothingRemains(left, plans, i, limit - generated);
    }

    /** The candidates of one endpoint: `n` are made, of which some are delivered and some backed off. */
    method RelayOne(ghost left: Left, plans: seq<EndpointPlan>, i: nat, room: nat)
      returns (n: nat, delivered: nat, backedOff: nat)
      requires IsLeft(left, plans) && i < |plans| && room > 0
      modifies this`tx
      ensures n <= room && tx == old(tx) + delivered
      ensures left(i, room) == (delivered + left(i + 1, room - n).0, backedOff + left(i + 1, room - n).1)
    {
      n := EndpointBudget(plans[i], |plans| - i, room);
      EndpointDone(left, plans, i, room, n);
      delivered, backedOff := SendCandidates(plans[i].attempts, n);
    }

    /** The number of candidates built for one endpoint: never more than the array made for them holds. */
    method EndpointBudget(plan: EndpointPlan, left: nat, room: nat) returns (n: nat)
      requires left > 0 && room > 0
      ensures n == Share(plan, left, room)
    {
      if plan.pass {
        return 0;
      }
      var commandLimit := Min(plan.count, room);
      if commandLimit == 0 {
        return 0;
      }
      var budget := Min((room + left - 1) / left, commandLimit);
      return Min(|plan.attempts|, budget);
    }

    method SendCandidates(attempts: seq<Attempt>, n: nat) returns (sent: nat, skipped: nat)
      requires n <= |attempts|
      modifies this`tx
      ensures sent == CountDelivered(attempts[..n]) && tx == old(tx) + sent
      ensures skipped == CountSkipped(attempts[..n])
    {
      sent, skipped := 0, 0;
      for j := 0 to n
        invariant sent == CountDelivered(attempts[..j]) && tx == old(tx) + sent
        invariant skipped == CountSkipped(attempts[..j])
      {
        assert attempts[..j + 1][..j] == attempts[..j];
        match attempts[j] {
          case Skipped(_) => skipped := skipped + 1;
          case Delivered => sent, tx := sent + 1, tx + 1;
          case Refused =>
        }
      }
    }

    /** Sends one peer's TCP endpoints to another peer, as many as get through within the limit. */
    method RelayTcp(open: bool, attempts: seq<Attempt>, limit: nat) returns (sent: nat, skipped: nat)
      modifies this`tx
      ensures sent == TcpSent(open, attempts, limit) && tx == old(tx) + sent
      ensures sent < limit ==> skipped == if open then CountSkipped(attempts) else 0
    {
      sent, skipped := 0, 0;
      if limit == 0 || !open {
        return;
      }
      var i := 0;
      while i < |attempts| && sent < limit
        invariant 0 <= i <= |attempts| && sent <= limit && tx == old(tx) + sent
        invariant sent == CountDelivered(attempts[..i]) && skipped == CountSkipped(attempts[..i])
      {
        assert attempts[..i + 1][..i] == attempts[..i];
        match attempts[i] {
          case Skipped(_) => skipped := skipped + 1;
          case Delivered => sent, tx := sent + 1, tx + 1;
          case Refused =>
        }
        i := i + 1;
      }
      DeliveredPrefix(attempts, i);
      assert i == |attempts| ==> attempts[..i] == attempts;
    }

    /** One transport of a metadata relay: the primary endpoint first, then the others within the limit. */
    method RelayOneMetadata(open: bool, first: bool, rest: seq<bool>, limit: nat) returns (sent: nat)
      modifies this`tx
      ensures sent == Min(limit, if open then One(first) + CountTrue(rest) else 0) && tx == old(tx) + sent
    {
      sent := 0;
      if limit == 0 || !open {
        return;
      }
      if first {
        sent, tx := 1, tx + 1;
      }
      var i := 0;
      while sent < limit && i < |rest|
        invariant 0 <= i <= |rest| && sent <= limit && tx == old(tx) + sent
        invariant sent == One(first) + CountTrue(rest[..i])
      {
        assert rest[..i + 1][..i] == rest[..i];
        if rest[i] {
          sent, tx := sent + 1, tx + 1;
        }
        i := i + 1;
      }
      TruePrefix(rest, i);
    }

    method RelayMetadata(m: Metadata, limit: nat) returns (sent: nat)
      modifies this`tx
      ensures sent == MetadataSent(m, limit) && tx == old(tx) + sent
    {
      sent := RelayOneMetadata(m.udp, m.udpFirst, m.udpRest, limit);
      if sent < limit {
        var more := RelayOneMetadata(m.tcp, m.tcpFirst, m.tcpRest, limit - sent);
        sent := sent + more;
      }
    }

    /** Asks for the metadata a pair is missing, and passes on what the other peer is known by. */
    method RequestMissing(v: Visit, s: PairState, limit: nat) returns (sent: nat)
      modifies this`tx
      ensures sent == MissingSent(v, s, limit) && tx == old(tx) + sent
    {
      sent := 0;
      if limit == 0 || !MissingDue(v, s) {
        return;
      }
      var wantA := s.metadataA && (s.dueA || s.pendingDemand);
      var wantB := s.metadataB && (s.dueB || s.pendingDemand);
      var requestA := !s.metadataA || NeedsMissing(v.b, v.a, wantB);
      var requestB := !s.metadataB || NeedsMissing(v.a, v.b, wantA);
      if requestA {
        sent := Ask(v.askA, s.metadataB, v.metadataB, limit);
      }
      if requestB && sent < limit {
        var more := Ask(v.askB, s.metadataA, v.metadataA, limit - sent);
        sent := sent + more;
      }
    }

    /** Asks one peer, and if that goes out, tells it what is known of the other. */
    method Ask(open: bool, known: bool, m: Metadata, limit: nat) returns (sent: nat)
      requires limit > 0
      modifies this`tx
      ensures sent == Asked(open, known, m, limit) && tx == old(tx) + sent
    {
      sent := 0;
      if open {
        sent, tx := 1, tx + 1;
        if known && sent < limit {
          var relayed := RelayMetadata(m, limit - sent);
          sent := sent + relayed;
        }
      }
    }

    /** The commands for one direction: UDP endpoints, then TCP endpoints within what is left. */
    method RelayDirection(d: Direction, limit: nat) returns (sent: nat, skipped: nat)
      modifies this`tx
      ensures sent == DirectionSent(d, limit) && tx == old(tx) + sent
      ensures sent < limit ==> skipped == DirectionSkipped(d, limit)
    {
      sent, skipped := RelayEndpoints(d.udp, d.endpoints, limit);
      if sent < limit {
        var more, moreSkipped := RelayTcp(d.tcp, d.tcpAttempts, limit - sent);
        sent, skipped := sent + more, skipped + moreSkipped;
      }
    }

    // ------------------------------------------------------------------ the run

    /** The commands of one direction; if any got through, the pair is marked as launched. */
    method SendCommands(v: Visit, d: Direction, sent0: nat) returns (sent: nat, skipped: nat, marked: bool)
      requires sent0 < maxPackets
      modifies this`tx, tasks`table
      ensures sent == sent0 + DirectionSent(d, maxPackets - sent0) && tx == old(tx) + sent - sent0
      ensures sent == sent0 ==> skipped == DirectionSkipped(d, maxPackets - sent0)
      ensures marked == (sent > sent0)
      ensures tasks.table ==
        if marked then MarkLaunched(old(tasks.table), tasks.now, PairKey(v.a.id, v.b.id)) else old(tasks.table)
    {
      sent, skipped := RelayDirection(d, maxPackets - sent0);
      sent := sent0 + sent;
      marked := sent > sent0;
      if marked {
        tasks.LaunchMarked(v.a.id, v.b.id);
      }
    }

    /** The commands of both directions, each within what is left of the budget. */
    method BothDirections(v: Visit, s: PairState, sent0: nat) returns (sent: nat, skipped: nat)
      requires sent0 < maxPackets
      modifies this`tx, tasks`table
      ensures sent == sent0 + Commands(v, s, maxPackets - sent0) && tx == old(tx) + sent - sent0
      ensures sent == sent0 ==> skipped == SkippedBy(v, s, maxPackets - sent0)
      ensures tasks.table ==
        Marked(old(tasks.table), tasks.now, PairKey(v.a.id, v.b.id), Marks(v, s, maxPackets - sent0))
    {
      sent, skipped := sent0, 0;
      var marked;
      if s.metadataA && (s.dueA || s.pendingDemand) {
        sent, skipped, marked := SendCommands(v, v.aToB, sent);
      }
      if sent < maxPackets && s.metadataB && (s.dueB || s.pendingDemand) {
        var k;
        sent, k, marked := SendCommands(v, v.bToA, sent);
        skipped := skipped + k;
      }
    }

    /** Launches one pair: the commands, and after them the peers' stable metadata. */
    method LaunchPair(v: Visit, s: PairState, sent0: nat) returns (sent: nat, skipped: nat)
      requires sent0 < maxPackets
      modifies this`tx, tasks`table
      ensures sent == sent0 + LaunchSent(v, s, maxPackets - sent0) && tx == old(tx) + sent - sent0
      ensures sent == sent0 ==> skipped == SkippedBy(v, s, maxPackets - sent0)
      ensures tasks.table ==
        Marked(old(tasks.table), tasks.now, PairKey(v.a.id, v.b.id), Marks(v, s, maxPackets - sent0))
    {
      sent, skipped := BothDirections(v, s, sent0);
      var commands := sent - sent0;
      if commands > 0 && sent < maxPackets && v.stableA {
        var n := RelayMetadata(v.metadataA, maxPackets - sent);
        sent := sent + n;
      }
      if commands > 0 && sent < maxPackets && v.stableB {
        var n := RelayMetadata(v.metadataB, maxPackets - sent);
        sent := sent + n;
      }
    }

    /** Sorts one pair into its stage, and launches it if it is ready. */
    method SortPair(v: Visit, s: PairState, sent0: nat) returns (sent: nat)
      requires sent0 < maxPackets && s.established
      modifies `tx, `tally, tasks`table
      ensures sent == sent0 + SentFor(v, s, maxPackets - sent0) && tx == old(tx) + sent - sent0
      ensures tally == Counted(old(tally), StageOf(v, s, maxPackets - sent0))
      ensures tasks.table ==
        Marked(old(tasks.table), tasks.now, PairKey(v.a.id, v.b.id), MarksFor(v, s, maxPackets - sent0))
    {
      sent := sent0;
      tally := tally.(pairs := tally.pairs + 1);
      if s.missing {
        tally := tally.(missing := tally.missing + 1);
        var n := RequestMissing(v, s, maxPackets - sent);
        sent := sent + n;
      } else if s.inFlight {
        tally := tally.(inFlight := tally.inFlight + 1);
      } else if s.backoff {
        tally := tally.(blacklisted := tally.blacklisted + 1);
      } else if s.unpunchable {
        tally := tally.(unpunchable := tally.unpunchable + 1);
      } else if s.waiting {
        if s.settled {
          tally := tally.(waiting := tally.waiting + 1);
        } else if s.demandWaiting {
          tally := tally.(demandWaiting := tally.demandWaiting + 1);
        } else {
          tally := tally.(waiting := tally.waiting + 1);
        }
      } else {
        tally := tally.(collected := tally.collected + 1);
        sent := TryPair(v, s, sent0);
      }
    }

    /** Launches a pair that is ready, and counts what came of it. */
    method TryPair(v: Visit, s: PairState, sent0: nat) returns (sent: nat)
      requires sent0 < maxPackets
      modifies `tx, `tally, tasks`table
      ensures sent == sent0 + LaunchSent(v, s, maxPackets - sent0) && tx == old(tx) + sent - sent0
      ensures var room := maxPackets - sent0;
        tally ==
          if Commands(v, s, room) > 0 then old(tally).(launched := old(tally).launched + 1)
          else if SkippedBy(v, s, room) > 0 then old(tally).(blacklisted := old(tally).blacklisted + 1)
          else old(tally).(suppressed := old(tally).suppressed + 1)
      ensures tasks.table ==
        Marked(old(tasks.table), tasks.now, PairKey(v.a.id, v.b.id), Marks(v, s, maxPackets - sent0))
    {
      var skipped;
      sent, skipped := LaunchPair(v, s, sent0);
      if sent > sent0 {
        tally := tally.(launched := tally.launched + 1);
      } else if skipped > 0 {
        tally := tally.(blacklisted := tally.blacklisted + 1);
      } else {
        tally := tally.(suppressed := tally.suppressed + 1);
      }
    }

    /** The run so far is as `p` says. */
    ghost predicate Shows(job: Job, p: Progress, sent: nat)
      reads this, tasks
    {
      && job.now == tasks.now && job.max == maxPackets && tasks.table == p.table && sent == p.sent
      && tally == TallyOf(p.log)
    }

    method Judge(ghost job: Job, v: Visit) returns (s: PairState)
      requires Real(job) && job.now == tasks.now
      ensures s == job.judge(tasks.table, v.a, v.b)
    {
      assert JudgesAt(job, tasks.table, v.a, v.b);
      s := Evaluate(tasks.table, tasks.now, v.a, v.b);
    }

    method Act(ghost job: Job, v: Visit, s: PairState, sent0: nat, ghost e: Effect) returns (sent: nat)
      requires Real(job) && job.now == tasks.now && sent0 < maxPackets && s.established
      requires e == job.effect(v, s, maxPackets - sent0)
      modifies `tx, `tally, tasks`table
      ensures sent == sent0 + e.sent && tx == old(tx) + sent - sent0 && tally == Counted(old(tally), e.stage)
      ensures tasks.table == job.mark(old(tasks.table), PairKey(v.a.id, v.b.id), e.marks)
    {
      assert ActsAt(job, v, s, maxPackets - sent0);
      assert MarksAt(job, tasks.table, PairKey(v.a.id, v.b.id), e.marks);
      sent := SortPair(v, s, sent0);
    }

    /** One pair of the run. */
    method VisitPair(ghost job: Job, ghost f: Visitor, ghost p: Progress, i: nat, j: nat, v: Visit, sent0: nat)
      returns (sent: nat, ghost q: Progress)
      requires Real(job) && Follows(f, job) && Shows(job, p, sent0) && sent0 < maxPackets && v == job.view(i, j)
      modifies `tx, `tally, tasks`table
      ensures q == f(p, i, j) && Shows(job, q, sent) && tx == old(tx) + sent - sent0
    {
      assert FollowsAt(f, job, p, i, j);
      q := f(p, i, j);
      sent := sent0;
      var s := Judge(job, v);
      if s.established {
        sent := Act(job, v, s, sent0, job.effect(v, s, maxPackets - sent0));
        assert q.log[..|p.log|] == p.log;
      }
    }

    /**
      The whole run: compaction, then every pair (i, j) with i < j in order until the budget is spent. `view`
      gives what is seen of a pair when it is visited. The packets sent stay within the budget and are all
      counted, and the run goes as `RunOf` says: so every pair with established peers was visited once, in order,
      unless the budget is spent; the counters are those of the stages these pairs were in; and the table takes
      exactly the steps of a legal run of the manager, one compaction and one launch for each launched pair.
    */
    method Run(peers: nat, view: (nat, nat) -> Visit) returns (sent: nat, ghost q: Progress)
      requires tasks.now + SUPPRESSION_TIME < NEVER
      modifies `tx, `tally, tasks`table
      ensures sent <= maxPackets && tx == old(tx) + sent
      ensures var job := SourceJob(tasks.now, maxPackets, view);
        q == RunOf(job, old(tasks.table), peers) && Shows(job, q, sent) && Orderly(job, q, peers, 0)
      ensures sent < maxPackets ==> SeenAll(view, q.log, peers, peers, 0)
      ensures tally.Balanced() && tally.pairs == |q.log| && tally.launched == |q.steps| - 1 && Collected(q.steps)
      ensures Traced(World(tasks.now, old(tasks.table)), q.steps, World(tasks.now, tasks.table))
    {
      ghost var w0, job := World(tasks.now, tasks.table), SourceJob(tasks.now, maxPackets, view);
      SourceIsReal(tasks.now, maxPackets, view);
      sent, q := RunAs(job, VisitorOf(job), w0, peers, view);
      RunIsGood(job, w0, peers);
      TallyIs(q.log);
    }

    method RunAs(ghost job: Job, ghost f: Visitor, ghost w0: World, peers: nat, view: (nat, nat) -> Visit)
      returns (sent: nat, ghost q: Progress)
      requires Real(job) && Follows(f, job) && job.now == tasks.now && job.max == maxPackets && view == job.view
      requires w0 == World(tasks.now, tasks.table)
      modifies `tx, `tally, tasks`table
      ensures tx == old(tx) + sent && q == RowsOf(f, Start(w0), peers, peers) && Shows(job, q, sent)
    {
      tally := NO_PAIRS;
      tasks.Compact();
      sent, q := VisitRows(job, f, Start(w0), peers, view);
    }

    method VisitRows(ghost job: Job, ghost f: Visitor, ghost p: Progress, peers: nat, view: (nat, nat) -> Visit)
      returns (sent: nat, ghost q: Progress)
      requires Real(job) && Follows(f, job) && Shows(job, p, 0) && view == job.view
      modifies `tx, `tally, tasks`table
      ensures q == RowsOf(f, p, peers, peers) && Shows(job, q, sent) && tx == old(tx) + sent
    {
      sent, q := 0, p;
      var i := 0;
      while i < peers && sent < maxPackets
        invariant i <= peers && q == RowsOf(f, p, peers, i) && Shows(job, q, sent) && tx == old(tx) + sent
      {
        sent, q := VisitRow(job, f, q, peers, view, i, sent);
        i := i + 1;
      }
      RowsStay(job, f, p, peers, i, peers);
    }

    /** The pairs of peer `i` with the peers after it, until the budget is spent. */
    method VisitRow(ghost job: Job, ghost f: Visitor, ghost p: Progress, peers: nat, view: (nat, nat) -> Visit, i: nat,
        sent0: nat)
      returns (sent: nat, ghost q: Progress)
      requires Real(job) && Follows(f, job) && i < peers && Shows(job, p, sent0) && view == job.view
      modifies `tx, `tally, tasks`table
      ensures q == RowOf(f, p, i, peers) && Shows(job, q, sent) && tx == old(tx) + sent - sent0
    {
      sent, q := sent0, p;
      var j := i + 1;
      while j < peers && sent < maxPackets
        invariant i < j <= peers && q == RowOf(f, p, i, j) && Shows(job, q, sent) && tx == old(tx) + sent - sent0
      {
        sent, q := VisitPair(job, f, q, i, j, view(i, j), sent);
        j := j + 1;
      }
      RowStays(job, f, p, i, j, peers);
    }
  }

  // ------------------------------------------------------------- the run as a function

  /**
    What a run depends on besides the table. `judge` gives the state of a pair, `effect` what a visit does about it,
    and `mark` the table after launches of a pair.
  */
  datatype Job = Job(now: int, max: nat, view: (nat, nat) -> Visit, judge: (Table, Peer, Peer) -> PairState,
      effect: (Visit, PairState, nat) -> Effect, mark: (Table, Key, nat) -> Table)

  function SourceJob(now: int, max: nat, view: (nat, nat) -> Visit): Job {
    Job(now, max, view, (t: Table, a: Peer, b: Peer) => Evaluate(t, now, a, b),
        (v: Visit, s: PairState, room: nat) => EffectOf(v, s, room),
        (t: Table, k: Key, marks: nat) => Marked(t, now, k, marks))
  }

  ghost predicate JudgesAt(job: Job, t: Table, a: Peer, b: Peer) {
    job.judge(t, a, b) == Evaluate(t, job.now, a, b)
  }

  ghost predicate ActsAt(job: Job, v: Visit, s: PairState, room: nat) {
    job.effect(v, s, room) == EffectOf(v, s, room)
  }

  ghost predicate MarksAt(job: Job, t: Table, k: Key, marks: nat) {
    job.mark(t, k, marks) == Marked(t, job.now, k, marks)
  }

  ghost predicate Real(job: Job) {
    && (forall t: Table, a: Peer, b: Peer {:trigger JudgesAt(job, t, a, b)} :: JudgesAt(job, t, a, b))
    && (forall v: Visit, s: PairState, room: nat {:trigger ActsAt(job, v, s, room)} :: ActsAt(job, v, s, room))
    && (forall t: Table, k: Key, marks: nat {:trigger MarksAt(job, t, k, marks)} :: MarksAt(job, t, k, marks))
  }

  lemma SourceIsReal(now: int, max: nat, view: (nat, nat) -> Visit)
    ensures Real(SourceJob(now, max, view))
  {
  }

  /** A visited pair and its stage. */
  datatype Seen = Seen(i: nat, j: nat, stage: Stage)

  /** The table, the packets sent, the pairs counted so far and the steps the table took. */
  datatype Progress = Progress(table: Table, sent: nat, log: seq<Seen>, steps: seq<Step>)

  function TallyOf(log: seq<Seen>): Tally {
    if log == [] then NO_PAIRS else Counted(TallyOf(log[..|log| - 1]), log[|log| - 1].stage)
  }

  function Visited(job: Job, p: Progress, i: nat, j: nat): Progress {
    var v := job.view(i, j);
    var s := job.judge(p.table, v.a, v.b);
    if p.sent >= job.max || !s.established then p
    else
      var e := job.effect(v, s, job.max - p.sent);
      Progress(job.mark(p.table, PairKey(v.a.id, v.b.id), e.marks), p.sent + e.sent, p.log + [Seen(i, j, e.stage)],
               p.steps + LaunchSteps(v, e.marks))
  }

  /** What a visit of the pair (i, j) makes of the progress so far. */
  type Visitor = (Progress, nat, nat) -> Progress

  function VisitorOf(job: Job): Visitor {
    (p: Progress, i: nat, j: nat) => Visited(job, p, i, j)
  }

  ghost predicate FollowsAt(f: Visitor, job: Job, p: Progress, i: nat, j: nat) {
    f(p, i, j) == Visited(job, p, i, j)
  }

  ghost predicate Follows(f: Visitor, job: Job) {
    forall p: Progress, i: nat, j: nat {:trigger FollowsAt(f, job, p, i, j)} :: FollowsAt(f, job, p, i, j)
  }

  /** After the pairs (i, i + 1) to (i, j - 1). */
  function RowOf(f: Visitor, p: Progress, i: nat, j: nat): Progress {
    if j <= i + 1 then p else f(RowOf(f, p, i, j - 1), i, j - 1)
  }

  /** After the rows of the first n peers. */
  function RowsOf(f: Visitor, p: Progress, peers: nat, n: nat): Progress {
    if n == 0 then p else RowOf(f, RowsOf(f, p, peers, n - 1), n - 1, peers)
  }

  function Start(w0: World): Progress {
    Progress(Compacted(w0.table, w0.now), 0, [], [Compact])
  }

  function RunOf(job: Job, table: Table, peers: nat): Progress {
    RowsOf(VisitorOf(job), Start(World(job.now, table)), peers, peers)
  }

  lemma {:induction false} RowStays(job: Job, f: Visitor, p: Progress, i: nat, j: nat, m: nat)
    requires Follows(f, job) && j <= m && (j == m || RowOf(f, p, i, j).sent >= job.max)
    ensures RowOf(f, p, i, m) == RowOf(f, p, i, j)
  {
    if j < m {
      RowStays(job, f, p, i, j, m - 1);
      assert FollowsAt(f, job, RowOf(f, p, i, j), i, m - 1);
    }
  }

  lemma {:induction false} RowsStay(job: Job, f: Visitor, p: Progress, peers: nat, i: nat, m: nat)
    requires Follows(f, job) && i <= m && (i == m || RowsOf(f, p, peers, i).sent >= job.max)
    ensures RowsOf(f, p, peers, m) == RowsOf(f, p, peers, i)
  {
    if i < m {
      RowsStay(job, f, p, peers, i, m - 1);
      RowStays(job, f, RowsOf(f, p, peers, m - 1), m - 1, 0, peers);
    }
  }

  /** A property of the progress before the visit of the pair (i, j). */
  type Good = (Progress, nat, nat) -> bool

  ghost predicate KeepsAt(f: Visitor, good: Good, p: Progress, i: nat, j: nat) {
    i < j && good(p, i, j) ==> good(f(p, i, j), i, j + 1)
  }

  ghost predicate RowStartsAt(good: Good, p: Progress, i: nat) {
    good(p, i, 0) ==> good(p, i, i + 1)
  }

  ghost predicate RowEndsAt(good: Good, peers: nat, p: Progress, i: nat, j: nat) {
    j >= peers && good(p, i, j) ==> good(p, i + 1, 0)
  }

  /** The property is kept by visits and holds on from one row to the next. */
  ghost predicate Kept(f: Visitor, good: Good, peers: nat) {
    && (forall p: Progress, i: nat, j: nat {:trigger KeepsAt(f, good, p, i, j)} :: KeepsAt(f, good, p, i, j))
    && (forall p: Progress, i: nat {:trigger RowStartsAt(good, p, i)} :: RowStartsAt(good, p, i))
    && (forall p: Progress, i: nat, j: nat {:trigger RowEndsAt(good, peers, p, i, j)} ::
          RowEndsAt(good, peers, p, i, j))
  }

  lemma {:induction false} RowKeeps(f: Visitor, good: Good, peers: nat, p: Progress, i: nat, j: nat)
    requires Kept(f, good, peers) && good(p, i, 0)
    ensures good(RowOf(f, p, i, j), i, if j <= i + 1 then i + 1 else j)
  {
    if j <= i + 1 {
      assert RowStartsAt(good, p, i);
    } else {
      RowKeeps(f, good, peers, p, i, j - 1);
      assert KeepsAt(f, good, RowOf(f, p, i, j - 1), i, j - 1);
    }
  }

  lemma {:induction false} RowsKeep(f: Visitor, good: Good, peers: nat, p: Progress, n: nat)
    requires Kept(f, good, peers) && good(p, 0, 0)
    ensures good(RowsOf(f, p, peers, n), n, 0)
  {
    if n > 0 {
      var q := RowsOf(f, p, peers, n - 1);
      RowsKeep(f, good, peers, p, n - 1);
      RowKeeps(f, good, peers, q, n - 1, peers);
      assert RowEndsAt(good, peers, RowOf(f, q, n - 1, peers), n - 1, if peers <= n then n else peers);
    }
  }

  function CountStage(log: seq<Seen>, stage: Stage): nat {
    if log == [] then 0 else CountStage(log[..|log| - 1], stage) + One(log[|log| - 1].stage == stage)
  }

  /** The counters belong to these numbers of pairs in each stage. */
  ghost predicate Tallies(t: Tally, n: Stage -> nat) {
    && t.missing == n(Missing) && t.inFlight == n(InFlight) && t.blacklisted == n(BackedOff) + n(AllSkipped)
    && t.unpunchable == n(Unpunchable) && t.suppressed == n(NoneSent) && t.waiting == n(Settled) + n(Waiting)
    && t.demandWaiting == n(DemandWaiting) && t.launched == n(Launched)
    && t.collected == n(Launched) + n(AllSkipped) + n(NoneSent)
  }

  lemma TalliesMore(t: Tally, n: Stage -> nat, m: Stage -> nat, stage: Stage)
    requires Tallies(t, n) && t.Balanced() && forall x :: m(x) == n(x) + One(x == stage)
    ensures Tallies(Counted(t, stage), m) && Counted(t, stage).Balanced()
  {
  }

  /** The counters are the numbers of pairs in each stage, and every pair is in exactly one. */
  lemma {:induction false} TallyIs(log: seq<Seen>)
    ensures TallyOf(log).Balanced() && TallyOf(log).pairs == |log| && Tallies(TallyOf(log), x => CountStage(log, x))
  {
    if log != [] {
      var front := log[..|log| - 1];
      TallyIs(front);
      TalliesMore(TallyOf(front), x => CountStage(front, x), x => CountStage(log, x), log[|log| - 1].stage);
    }
  }

  // ------------------------------------------------------------- which pairs are visited

  predicate Before(i: nat, j: nat, k: nat, l: nat) {
    i < k || (i == k && j < l)
  }

  ghost predicate InLog(log: seq<Seen>, i: nat, j: nat) {
    exists n :: 0 <= n < |log| && log[n].i == i && log[n].j == j
  }

  predicate BothUp(view: (nat, nat) -> Visit, i: nat, j: nat) {
    view(i, j).a.established && view(i, j).b.established
  }

  /** The log has only pairs before (k, l), in order and each once, with both peers established. */
  ghost predicate Orderly(job: Job, p: Progress, k: nat, l: nat) {
    && (forall n :: 0 <= n < |p.log| ==> p.log[n].i < p.log[n].j && Before(p.log[n].i, p.log[n].j, k, l))
    && (forall n :: 0 <= n < |p.log| ==> BothUp(job.view, p.log[n].i, p.log[n].j))
    && (forall m, n :: 0 <= m < n < |p.log| ==> Before(p.log[m].i, p.log[m].j, p.log[n].i, p.log[n].j))
  }

  ghost predicate HasSeen(view: (nat, nat) -> Visit, log: seq<Seen>, peers: nat, i: nat, j: nat) {
    i < j < peers && BothUp(view, i, j) ==> InLog(log, i, j)
  }

  /** Every pair before (k, l) with both peers established is in the log. */
  ghost predicate SeenAll(view: (nat, nat) -> Visit, log: seq<Seen>, peers: nat, k: nat, l: nat) {
    forall i: nat, j: nat {:trigger HasSeen(view, log, peers, i, j)} ::
      Before(i, j, k, l) ==> HasSeen(view, log, peers, i, j)
  }

  /** What holds of the steps all along: they are a legal run, with a launch for each launched pair. */
  ghost predicate Sane(job: Job, w0: World, p: Progress) {
    && p.sent <= job.max && Collected(p.steps) && |p.steps| - 1 == CountStage(p.log, Launched)
    && job.now == w0.now && Traced(w0, p.steps, World(w0.now, p.table))
  }

  lemma SaneStep(job: Job, w0: World, p: Progress, i: nat, j: nat)
    requires Real(job) && Sane(job, w0, p)
    ensures Sane(job, w0, Visited(job, p, i, j))
  {
    var v := job.view(i, j);
    var s := job.judge(p.table, v.a, v.b);
    if p.sent < job.max && s.established {
      var e := job.effect(v, s, job.max - p.sent);
      VisitIsLegal(job, w0, p, v, s, e);
      CountedSteps(p.log, p.steps, v, e, i, j);
      SaneParts(job, w0, Visited(job, p, i, j));
    }
  }

  lemma SaneParts(job: Job, w0: World, q: Progress)
    requires q.sent <= job.max && Collected(q.steps) && |q.steps| - 1 == CountStage(q.log, Launched)
    requires job.now == w0.now && Traced(w0, q.steps, World(w0.now, q.table))
    ensures Sane(job, w0, q)
  {
  }

  lemma CountedSteps(log: seq<Seen>, steps: seq<Step>, v: Visit, e: Effect, i: nat, j: nat)
    requires Collected(steps) && |steps| - 1 == CountStage(log, Launched) && (e.marks > 0 <==> e.stage == Launched)
    ensures var more := steps + LaunchSteps(v, e.marks);
      Collected(more) && |more| - 1 == CountStage(log + [Seen(i, j, e.stage)], Launched)
  {
    CollectedMore(steps, v, e.marks);
    CountMore(log, Seen(i, j, e.stage), Launched);
  }

  lemma VisitIsLegal(job: Job, w0: World, p: Progress, v: Visit, s: PairState, e: Effect)
    requires Real(job) && job.now == w0.now && Traced(w0, p.steps, World(w0.now, p.table)) && p.sent < job.max
    requires s == job.judge(p.table, v.a, v.b) && s.established && e == job.effect(v, s, job.max - p.sent)
    ensures Traced(w0, p.steps + LaunchSteps(v, e.marks),
      World(w0.now, job.mark(p.table, PairKey(v.a.id, v.b.id), e.marks)))
    ensures e.sent <= job.max - p.sent && (e.marks > 0 <==> e.stage == Launched)
  {
    ActLaws(job, v, s, job.max - p.sent);
    VisitTraced(job, w0, p.steps, p.table, v, e.marks);
  }

  lemma VisitTraced(job: Job, w0: World, steps: seq<Step>, t: Table, v: Visit, marks: nat)
    requires Real(job) && job.now == w0.now && Traced(w0, steps, World(w0.now, t)) && marks <= 2
    requires marks > 0 ==> Ready(job.judge(t, v.a, v.b))
    ensures Traced(w0, steps + LaunchSteps(v, marks), World(w0.now, job.mark(t, PairKey(v.a.id, v.b.id), marks)))
  {
    JudgeIs(job, t, v);
    MarkIs(job, t, v, marks);
    TracedAs(w0, steps, t, v, marks, job.judge(t, v.a, v.b), job.mark(t, PairKey(v.a.id, v.b.id), marks));
  }

  lemma TracedAs(w0: World, steps: seq<Step>, t: Table, v: Visit, marks: nat, s: PairState, t': Table)
    requires Traced(w0, steps, World(w0.now, t)) && marks <= 2 && s == Evaluate(t, w0.now, v.a, v.b)
    requires (marks > 0 ==> Ready(s)) && t' == Marked(t, w0.now, PairKey(v.a.id, v.b.id), marks)
    ensures Traced(w0, steps + LaunchSteps(v, marks), World(w0.now, t'))
  {
    TracedVisit(w0, steps, World(w0.now, t), v, marks);
  }

  lemma JudgeIs(job: Job, t: Table, v: Visit)
    requires Real(job)
    ensures job.judge(t, v.a, v.b) == Evaluate(t, job.now, v.a, v.b)
  {
    assert JudgesAt(job, t, v.a, v.b);
  }

  lemma MarkIs(job: Job, t: Table, v: Visit, marks: nat)
    requires Real(job)
    ensures job.mark(t, PairKey(v.a.id, v.b.id), marks) == Marked(t, job.now, PairKey(v.a.id, v.b.id), marks)
  {
    assert MarksAt(job, t, PairKey(v.a.id, v.b.id), marks);
  }

  lemma ActLaws(job: Job, v: Visit, s: PairState, room: nat)
    requires Real(job) && s.established
    ensures var e := job.effect(v, s, room);
      e.sent <= room && e.marks <= 2 && (e.marks > 0 ==> Ready(s)) && (e.marks > 0 <==> e.stage == Launched)
  {
    assert ActsAt(job, v, s, room);
    EffectLaws(v, s, room);
  }

  lemma EffectLaws(v: Visit, s: PairState, room: nat)
    requires s.established
    ensures var e := EffectOf(v, s, room);
      e.sent <= room && e.marks <= 2 && (e.marks > 0 ==> Ready(s)) && (e.marks > 0 <==> e.stage == Launched)
  {
  }

  lemma CountMore(log: seq<Seen>, e: Seen, stage: Stage)
    ensures CountStage(log + [e], stage) == CountStage(log, stage) + One(e.stage == stage)
  {
    assert (log + [e])[..|log|] == log;
  }

  lemma OrderlyStep(job: Job, p: Progress, i: nat, j: nat)
    requires Real(job)
    requires Orderly(job, p, i, j) && i < j
    ensures Orderly(job, Visited(job, p, i, j), i, j + 1)
  {
    UpIsJudged(job, p, i, j);
  }

  /** A pair is counted exactly if both its peers are established. */
  lemma UpIsJudged(job: Job, p: Progress, i: nat, j: nat)
    requires Real(job)
    ensures var v := job.view(i, j); job.judge(p.table, v.a, v.b).established == BothUp(job.view, i, j)
  {
    var v := job.view(i, j);
    assert JudgesAt(job, p.table, v.a, v.b);
    ReadyIsCollected(p.table, job.now, v.a, v.b);
  }

  lemma LogGrows(log: seq<Seen>, e: Seen, i: nat, j: nat)
    ensures InLog(log, i, j) || (e.i == i && e.j == j) ==> InLog(log + [e], i, j)
  {
    if n :| 0 <= n < |log| && log[n].i == i && log[n].j == j { assert (log + [e])[n] == log[n]; }
    assert (log + [e])[|log|] == e;
  }

  /** The budget is spent, or all pairs up to here have been seen. */
  ghost predicate SeenOrSpent(job: Job, p: Progress, peers: nat, k: nat, l: nat) {
    p.sent < job.max ==> SeenAll(job.view, p.log, peers, k, l)
  }

  lemma SeenStep(job: Job, p: Progress, peers: nat, i: nat, j: nat)
    requires Real(job)
    requires SeenOrSpent(job, p, peers, i, j)
    ensures SeenOrSpent(job, Visited(job, p, i, j), peers, i, j + 1)
  {
    var q := Visited(job, p, i, j);
    UpIsJudged(job, p, i, j);
    if q.sent < job.max {
      forall k: nat, l: nat | Before(k, l, i, j + 1)
        ensures HasSeen(job.view, q.log, peers, k, l)
      {
        assert Before(k, l, i, j) ==> HasSeen(job.view, p.log, peers, k, l);
        if BothUp(job.view, i, j) { LogGrows(p.log, q.log[|p.log|], k, l); }
      }
    }
  }

  lemma SkipPairs(job: Job, p: Progress, peers: nat, i: nat)
    requires SeenOrSpent(job, p, peers, i, 0)
    ensures SeenOrSpent(job, p, peers, i, i + 1)
  {
    forall k: nat, l: nat | p.sent < job.max && Before(k, l, i, i + 1)
      ensures HasSeen(job.view, p.log, peers, k, l)
    {
      if k < l { assert Before(k, l, i, 0); }
    }
  }

  lemma RowDone(job: Job, p: Progress, peers: nat, i: nat, j: nat)
    requires SeenOrSpent(job, p, peers, i, j) && j >= peers
    ensures SeenOrSpent(job, p, peers, i + 1, 0)
  {
    forall k: nat, l: nat | p.sent < job.max && Before(k, l, i + 1, 0)
      ensures HasSeen(job.view, p.log, peers, k, l)
    {
      if l < peers { assert Before(k, l, i, j); }
    }
  }

  /** All of this before the visit of the pair (k, l). */
  ghost predicate GoodAt(job: Job, w0: World, peers: nat, p: Progress, k: nat, l: nat) {
    Sane(job, w0, p) && Orderly(job, p, k, l) && SeenOrSpent(job, p, peers, k, l)
  }

  lemma GoodIsKept(job: Job, w0: World, peers: nat, good: Good)
    requires Real(job) && forall p: Progress, k: nat, l: nat :: good(p, k, l) <==> GoodAt(job, w0, peers, p, k, l)
    ensures Kept(VisitorOf(job), good, peers)
  {
    var f := VisitorOf(job);
    forall p: Progress, i: nat, j: nat ensures KeepsAt(f, good, p, i, j) {
      if i < j && good(p, i, j) {
        SaneStep(job, w0, p, i, j);
        OrderlyStep(job, p, i, j);
        SeenStep(job, p, peers, i, j);
      }
    }
    forall p: Progress, i: nat ensures RowStartsAt(good, p, i) {
      if good(p, i, 0) { SkipPairs(job, p, peers, i); }
    }
    forall p: Progress, i: nat, j: nat ensures RowEndsAt(good, peers, p, i, j) {
      if j >= peers && good(p, i, j) { RowDone(job, p, peers, i, j); }
    }
  }

  lemma RunIsGood(job: Job, w0: World, peers: nat)
    requires Real(job) && w0.now + SUPPRESSION_TIME < NEVER && job.now == w0.now
    ensures GoodAt(job, w0, peers, RunOf(job, w0.table, peers), peers, 0)
  {
    var good: Good := (p: Progress, k: nat, l: nat) => GoodAt(job, w0, peers, p, k, l);
    GoodIsKept(job, w0, peers, good);
    TracedCompact(w0);
    RowsKeep(VisitorOf(job), good, peers, Start(w0), peers);
  }

  // ------------------------------------------------------------- a ready pair is launched

  lemma {:induction false} DeliveredCounts(attempts: seq<Attempt>, k: nat)
    requires k < |attempts| && attempts[k].Delivered?
    ensures CountDelivered(attempts) > 0
  {
    if k < |attempts| - 1 { DeliveredCounts(attempts[..|attempts| - 1], k); }
  }

  /** The endpoint has a candidate, and its first one gets through. */
  predicate GetsThrough(plan: EndpointPlan) {
    !plan.pass && plan.count > 0 && plan.attempts != [] && plan.attempts[0].Delivered?
  }

  /** A share is at least one, and leaves one for each endpoint after it. */
  lemma ShareIsFair(plan: EndpointPlan, left: nat, limit: nat)
    requires 0 < left <= limit
    ensures Share(plan, left, limit) <= limit - (left - 1)
    ensures !plan.pass && plan.count > 0 && plan.attempts != [] ==> Share(plan, left, limit) >= 1
  {
    var q := (limit + left - 1) / left;
    assert limit + left - 1 == left * q + (limit + left - 1) % left;
    if q < 1 { Multiple(left, q, 0); }
    if q > limit - (left - 1) { Rounded(left, limit, q); }
  }

  lemma Multiple(d: nat, q: int, r: int)
    requires q <= r
    ensures d * q <= d * r
  {
  }

  lemma Rounded(left: nat, limit: nat, q: int)
    requires 0 < left <= limit && left * q <= limit + left - 1
    ensures q <= limit - (left - 1)
  {
    var r := limit - left + 2;
    if q >= r {
      Multiple(left, r, q);
      assert left * r == limit + left + (left - 1) * (limit - left);
      Multiple(left - 1, 0, limit - left);
    }
  }

  /** No endpoint is starved: with a packet for each endpoint, one whose first candidate gets through is served. */
  lemma {:induction false} EndpointsAreServed(plans: seq<EndpointPlan>, limit: nat, k: nat)
    requires k < |plans| <= limit && GetsThrough(plans[k])
    ensures EndpointsSent(plans, limit) > 0
  {
    var n := Share(plans[0], |plans|, limit);
    ShareIsFair(plans[0], |plans|, limit);
    if k == 0 {
      DeliveredCounts(plans[0].attempts[..n], 0);
    } else {
      EndpointsAreServed(plans[1..], limit - n, k - 1);
    }
  }

  /** Some command of the direction can get through. */
  ghost predicate Deliverable(d: Direction, room: nat) {
    || (d.tcp && exists k :: 0 <= k < |d.tcpAttempts| && d.tcpAttempts[k].Delivered?)
    || (d.udp && |d.endpoints| <= room && exists k :: 0 <= k < |d.endpoints| && GetsThrough(d.endpoints[k]))
  }

  lemma DeliverableIsSent(d: Direction, room: nat)
    requires room > 0 && Deliverable(d, room)
    ensures DirectionSent(d, room) > 0
  {
    if d.udp && |d.endpoints| <= room && exists k :: 0 <= k < |d.endpoints| && GetsThrough(d.endpoints[k]) {
      var k :| 0 <= k < |d.endpoints| && GetsThrough(d.endpoints[k]);
      EndpointsAreServed(d.endpoints, room, k);
    } else {
      var k :| 0 <= k < |d.tcpAttempts| && d.tcpAttempts[k].Delivered?;
      DeliveredCounts(d.tcpAttempts, k);
    }
  }

  /** A punch at one of the peers is wanted, and a command for it can get through. */
  ghost predicate CanLaunch(v: Visit, s: PairState, room: nat) {
    (WantsA(s) && Deliverable(v.aToB, room)) || (WantsB(s) && Deliverable(v.bToA, room))
  }

  lemma CanLaunchDoes(v: Visit, s: PairState, room: nat)
    requires room > 0 && Ready(s) && CanLaunch(v, s, room)
    ensures StageOf(v, s, room) == Launched && MarksFor(v, s, room) > 0
  {
    if WantsA(s) && Deliverable(v.aToB, room) {
      DeliverableIsSent(v.aToB, room);
    } else if CommandsA(v, s, room) == 0 {
      DeliverableIsSent(v.bToA, room);
    }
  }

  /** The run before the pair (i, j) is visited. */
  function Until(f: Visitor, p: Progress, peers: nat, i: nat, j: nat): Progress {
    RowOf(f, RowsOf(f, p, peers, i), i, j)
  }

  ghost predicate GrowsAt(f: Visitor, p: Progress, i: nat, j: nat) {
    p.steps <= f(p, i, j).steps
  }

  lemma {:induction false} RowGrows(f: Visitor, p: Progress, i: nat, j: nat, m: nat)
    requires j <= m && forall q: Progress, k: nat, l: nat {:trigger GrowsAt(f, q, k, l)} :: GrowsAt(f, q, k, l)
    ensures RowOf(f, p, i, j).steps <= RowOf(f, p, i, m).steps
  {
    if j < m {
      RowGrows(f, p, i, j, m - 1);
      assert GrowsAt(f, RowOf(f, p, i, m - 1), i, m - 1);
    }
  }

  lemma {:induction false} RowsGrow(f: Visitor, p: Progress, peers: nat, n: nat, m: nat)
    requires n <= m && forall q: Progress, k: nat, l: nat {:trigger GrowsAt(f, q, k, l)} :: GrowsAt(f, q, k, l)
    ensures RowsOf(f, p, peers, n).steps <= RowsOf(f, p, peers, m).steps
  {
    if n < m {
      RowsGrow(f, p, peers, n, m - 1);
      RowGrows(f, RowsOf(f, p, peers, m - 1), m - 1, 0, peers);
    }
  }

  lemma UntilGrows(f: Visitor, p: Progress, peers: nat, i: nat, j: nat)
    requires i < j < peers && forall q: Progress, k: nat, l: nat {:trigger GrowsAt(f, q, k, l)} :: GrowsAt(f, q, k, l)
    ensures f(Until(f, p, peers, i, j), i, j).steps <= RowsOf(f, p, peers, peers).steps
  {
    var q := RowsOf(f, p, peers, i);
    assert RowOf(f, q, i, j + 1) == f(RowOf(f, q, i, j), i, j);
    RowGrows(f, q, i, j + 1, peers);
    RowsGrow(f, p, peers, i + 1, peers);
    assert RowsOf(f, p, peers, i + 1) == RowOf(f, q, i, peers);
  }

  /**
    While packets are left, a pair that is ready when its turn comes, and for which a command can get through, is
    launched: the steps of the run have its launch at the place the run has come to.
  */
  lemma ReadyIsLaunched(job: Job, table: Table, peers: nat, i: nat, j: nat, p: Progress)
    requires Real(job) && i < j < peers && p == Until(VisitorOf(job), Start(World(job.now, table)), peers, i, j)
    requires p.sent < job.max
    requires var v := job.view(i, j);
      var s := job.judge(p.table, v.a, v.b); Ready(s) && CanLaunch(v, s, job.max - p.sent)
    ensures var steps, n := RunOf(job, table, peers).steps, |p.steps|;
      && n < |steps| && p.steps <= steps
      && steps[n].Launch? && steps[n].a == job.view(i, j).a.id && steps[n].b == job.view(i, j).b.id
  {
    var f, v := VisitorOf(job), job.view(i, j);
    LaunchesHere(job, p, i, j);
    UntilGrows(f, Start(World(job.now, table)), peers, i, j);
    assert f(p, i, j) == Visited(job, p, i, j);
  }

  lemma LaunchesHere(job: Job, p: Progress, i: nat, j: nat)
    requires Real(job) && p.sent < job.max
    requires var v := job.view(i, j);
      var s := job.judge(p.table, v.a, v.b); Ready(s) && CanLaunch(v, s, job.max - p.sent)
    ensures var v := job.view(i, j);
      exists twice :: Visited(job, p, i, j).steps == p.steps + [Launch(v.a.id, v.b.id, twice)]
  {
    var v := job.view(i, j);
    var s, room := job.judge(p.table, v.a, v.b), job.max - p.sent;
    MarksHere(job, v, s, room);
    var marks := job.effect(v, s, room).marks;
    assert LaunchSteps(v, marks) == [Launch(v.a.id, v.b.id, marks >= 2)];
    assert Visited(job, p, i, j).steps == p.steps + LaunchSteps(v, marks);
  }

  lemma MarksHere(job: Job, v: Visit, s: PairState, room: nat)
    requires Real(job) && room > 0 && Ready(s) && CanLaunch(v, s, room)
    ensures job.effect(v, s, room).marks > 0
  {
    assert ActsAt(job, v, s, room);
    CanLaunchDoes(v, s, room);
  }

  /** A legal run of the punch-control manager that leads from `w0` to `w`. */
  ghost predicate Traced(w0: World, steps: seq<Step>, w: World) {
    LegalRun(w0, steps) && At(w0, steps, |steps|) == w
  }

  /** What a collection run does to the table: one compaction, then launches. */
  ghost predicate Collected(steps: seq<Step>) {
    steps != [] && steps[0] == Compact && forall i :: 0 < i < |steps| ==> steps[i].Launch?
  }

  function LaunchSteps(v: Visit, marks: nat): seq<Step> {
    if marks == 0 then [] else [Launch(v.a.id, v.b.id, marks >= 2)]
  }

  lemma CollectedMore(steps: seq<Step>, v: Visit, marks: nat)
    requires Collected(steps)
    ensures Collected(steps + LaunchSteps(v, marks)) && |LaunchSteps(v, marks)| == One(marks > 0)
  {
  }

  lemma TracedCompact(w0: World)
    requires w0.now + SUPPRESSION_TIME < NEVER
    ensures Traced(w0, [Compact], World(w0.now, Compacted(w0.table, w0.now)))
  {
    var steps := [Compact];
    assert At(w0, steps, 0) == w0;
    assert At(w0, steps, 1) == Next(w0, Compact);
    assert LegalAt(w0, steps, 0);
  }

  /** One more legal step extends a trace. */
  lemma TracedStep(w0: World, steps: seq<Step>, w: World, s: Step)
    requires Traced(w0, steps, w) && Legal(w, s)
    ensures Traced(w0, steps + [s], Next(w, s))
  {
    var all, n := steps + [s], |steps|;
    forall i | 0 <= i < |all| ensures LegalAt(w0, all, i) {
      assert all[..n] == steps;
      AtPrefix(w0, all, n, i);
      if i < n { assert LegalAt(w0, steps, i); }
    }
    assert all[..n] == steps;
    AtPrefix(w0, all, n, n);
  }

  /** A legal run that goes on where another ended is one legal run with it. */
  lemma {:induction false} TracedJoin(w0: World, steps: seq<Step>, w1: World, more: seq<Step>, n: nat)
    requires Traced(w0, steps, w1) && LegalRun(w1, more) && n <= |more|
    ensures Traced(w0, steps + more[..n], At(w1, more, n))
  {
    if n == 0 {
      assert steps + more[..0] == steps;
    } else {
      TracedJoin(w0, steps, w1, more, n - 1);
      assert LegalAt(w1, more, n - 1);
      TracedStep(w0, steps + more[..n - 1], At(w1, more, n - 1), more[n - 1]);
      OneMore(steps, more, n);
    }
  }

  lemma OneMore(steps: seq<Step>, more: seq<Step>, n: nat)
    requires 0 < n <= |more|
    ensures steps + more[..n] == steps + more[..n - 1] + [more[n - 1]]
  {
  }

  lemma TracedVisit(w0: World, steps: seq<Step>, w: World, v: Visit, marks: nat)
    requires Traced(w0, steps, w) && marks <= 2 && (marks > 0 ==> Ready(Evaluate(w.table, w.now, v.a, v.b)))
    ensures Traced(w0, steps + LaunchSteps(v, marks),
      World(w.now, Marked(w.table, w.now, PairKey(v.a.id, v.b.id), marks)))
  {
    if marks == 0 {
      assert steps + LaunchSteps(v, marks) == steps;
    } else {
      ReadyIsCollected(w.table, w.now, v.a, v.b);
      TracedStep(w0, steps, w, Launch(v.a.id, v.b.id, marks >= 2));
    }
  }
}
