/**
  The mailbox under concurrency: any number of producers in Push and the one run loop in Pop
  and Wait, one step per shared access. Each lane is the chain of SegmentedSteps, accessed by
  the same steps, so a call of Enqueue or Dequeue is spread over many steps of this machine.
  A place in a ring is claimed first and published later; until then it is not handed out.
 */
module MailboxSteps {
  import opened Words
  import Q = SegmentedSteps
  import L = SegmentedLoss

  datatype Policy = Expand | Block | DropNewest

  datatype Envelope<+P> = Envelope(urgent: bool, persist: bool, payload: P)

  /** What enters a lane, and whether its write-ahead append succeeded. */
  datatype Item<+P> = Item(env: Envelope<P>, logged: bool)

  type Lane<+P> = Q.State<Item<P>>

  /** Enqueue: in the lane's Enqueue, wherever the lane's own state says. */
  datatype Producer<+P> =
    | Idle
    | CheckClosed(env: Envelope<P>)
    | WriteAhead(env: Envelope<P>)
    | Enqueue(item: Item<P>)
    | Publish(item: Item<P>, seg: nat, idx: nat)
    | AddSize
    | Notify
    | RecheckClosed(item: Item<P>)

  /** PopUrgent, PopNormal: in that lane's Dequeue. */
  datatype Consumer<+P> = PopUrgent | PopNormal | SubSize(env: Envelope<P>) | Handle(env: Envelope<P>) | Wait | Stopped

  datatype State<+P> = State(
    urgent: Lane<P>,
    normal: Lane<P>,
    size: int,
    notify: bool,
    closed: bool,
    log: seq<Envelope<P>>,
    producers: seq<Producer<P>>,
    consumer: Consumer<P>)

  datatype Config = Config(policy: Policy, urgentCap: nat, normalCap: nat, maxSeg: Word)

  /**
    `ok` is whatever the access leaves open: whether encode and append succeed, whether a ring
    refuses a put for a neighbour's unfinished take. `pickClosed` is select's free choice when
    both channels are ready.
   */
  datatype Move<+P> = Produce(p: nat, env: Envelope<P>, ok: bool) | Consume(pickClosed: bool) | Close

  function Init<P>(n: nat): State<P> {
    State(Q.Init(n), Q.Init(n), 0, false, false, [], seq(n, _ => Idle), PopUrgent)
  }

  function Goto<P>(s: State<P>, p: nat, pc: Producer<P>): State<P>
    requires p < |s.producers|
  {
    s.(producers := s.producers[p := pc])
  }

  function LaneOf<P>(s: State<P>, urgent: bool): Lane<P> {
    if urgent then s.urgent else s.normal
  }

  function WithLane<P>(s: State<P>, urgent: bool, lane: Lane<P>): State<P> {
    if urgent then s.(urgent := lane) else s.(normal := lane)
  }

  function Cap(cfg: Config, urgent: bool): nat {
    if urgent then cfg.urgentCap else cfg.normalCap
  }

  ghost predicate LanesFit<P>(s: State<P>) {
    Q.Wellformed(s.urgent) && Q.Wellformed(s.normal) && |s.urgent.producers| == |s.normal.producers| == |s.producers|
  }

  /** One access inside the lane's Enqueue by producer p, and what it does next once that call is over. */
  function EnqueueStep<P>(s: State<P>, cfg: Config, p: nat, ok: bool): State<P>
    requires LanesFit(s) && p < |s.producers| && s.producers[p].Enqueue?
  {
    var item := s.producers[p].item;
    var urgent := item.env.urgent;
    var lane := LaneOf(s, urgent);
    var lane' := Q.ProducerStep(lane, Cap(cfg, urgent), cfg.maxSeg, p, item, ok);
    var pc :=
      if !lane'.producers[p].Idle? then Enqueue(item)
      else if lane.producers[p].RingPut? then Publish(item, lane.producers[p].t, |lane.chain[lane.producers[p].t].claimed|)
      else if cfg.policy == Block then RecheckClosed(item)
      else Idle;                                                                           // full, or dropped
    WithLane(Goto(s, p, pc), urgent, lane')
  }

  /** One access of Push by producer p. */
  function ProducerStep<P>(s: State<P>, cfg: Config, p: nat, env: Envelope<P>, ok: bool): State<P>
    requires LanesFit(s) && p < |s.producers|
  {
    match s.producers[p]
    case Idle => Goto(s, p, CheckClosed(env))
    case CheckClosed(e) => Goto(s, p, if s.closed then Idle else WriteAhead(e))            // ErrMailboxClosed
    case WriteAhead(e) =>
      if e.persist && ok then Goto(s, p, Enqueue(Item(e, true))).(log := s.log + [e])
      else Goto(s, p, Enqueue(Item(e, false)))
    case Enqueue(_) => EnqueueStep(s, cfg, p, ok)
    case RecheckClosed(item) => Goto(s, p, if s.closed then Idle else Enqueue(item))
    case Publish(_, _, _) => Goto(s, p, AddSize)
    case AddSize => Goto(s, p, Notify).(size := s.size + 1)
    case Notify => Goto(s, p, Idle).(notify := true)
  }

  /** The producer's place is the next one the run loop would take from this lane. */
  predicate Withholds<P>(pc: Producer<P>, urgent: bool, seg: nat, idx: nat) {
    pc.Publish? && pc.item.env.urgent == urgent && pc.seg == seg && pc.idx == idx
  }

  /** The place at the front of the head segment has been published, if it has been claimed at all. */
  ghost predicate FrontReady<P>(s: State<P>, urgent: bool)
    requires LanesFit(s)
  {
    var lane := LaneOf(s, urgent);
    forall p :: 0 <= p < |s.producers| ==> !Withholds(s.producers[p], urgent, lane.head, lane.chain[lane.head].taken)
  }

  /** One access inside a lane's Dequeue; `done` when that call is over, with what it took. */
  ghost function DequeueStep<P>(s: State<P>, urgent: bool): State<P>
    requires LanesFit(s)
  {
    var lane := LaneOf(s, urgent);
    var lane' := Q.ConsumerStep(lane, FrontReady(s, urgent));
    var s1 := WithLane(s, urgent, lane');
    if !lane'.consumer.Waiting? then s1
    else if lane.consumer.RingTake? then
      s1.(consumer := SubSize(lane.chain[lane.head].claimed[lane.chain[lane.head].taken].v.env))
    else s1.(consumer := if urgent then PopNormal else Wait)
  }

  /** One access of the run loop. A Wait with nothing ready stays where it is. */
  ghost function ConsumerStep<P>(s: State<P>, pickClosed: bool): State<P>
    requires LanesFit(s)
  {
    match s.consumer
    case PopUrgent => DequeueStep(s, true)
    case PopNormal => DequeueStep(s, false)
    case SubSize(e) => s.(consumer := Handle(e), size := s.size - 1)
    case Handle(_) => s.(consumer := PopUrgent)
    case Wait =>
      if s.closed && (pickClosed || !s.notify) then s.(consumer := Stopped)
      else if s.notify then s.(consumer := PopUrgent, notify := false)
      else s
    case Stopped => s
  }

  ghost function Step<P>(s: State<P>, cfg: Config, m: Move<P>): State<P>
    requires LanesFit(s)
  {
    match m
    case Produce(p, env, ok) => if p < |s.producers| then ProducerStep(s, cfg, p, env, ok) else s
    case Consume(pickClosed) => ConsumerStep(s, pickClosed)
    case Close => s.(closed := true)
  }

  // ---------------------------------------------------------------- the lanes stay chains

  ghost predicate Lanes<P>(s: State<P>)
    ensures Lanes(s) ==> LanesFit(s)
  {
    && Q.Inv(s.urgent) && Q.Inv(s.normal)
    && |s.urgent.producers| == |s.normal.producers| == |s.producers|
    && (forall p :: 0 <= p < |s.producers| ==> Agrees(s, p))
    && (!s.consumer.PopUrgent? ==> s.urgent.consumer.Waiting?)
    && (!s.consumer.PopNormal? ==> s.normal.consumer.Waiting?)
  }

  /** A producer is inside a lane's Enqueue only where Push says so, with the item Push is carrying. */
  ghost predicate Agrees<P>(s: State<P>, p: nat)
    requires |s.urgent.producers| == |s.normal.producers| == |s.producers| && p < |s.producers|
  {
    && (s.urgent.producers[p].Idle? || (s.producers[p].Enqueue? && s.producers[p].item.env.urgent && s.urgent.producers[p].v == s.producers[p].item))
    && (s.normal.producers[p].Idle? || (s.producers[p].Enqueue? && !s.producers[p].item.env.urgent && s.normal.producers[p].v == s.producers[p].item))
  }

  lemma InitLanes<P>(n: nat)
    ensures Lanes(Init<P>(n))
  {
  }

  lemma LaneAccess<P>(lane: Lane<P>, cap: nat, maxSeg: Word, p: nat, item: Item<P>, ok: bool)
    requires Q.Inv(lane) && p < |lane.producers|
    requires lane.producers[p].Idle? || lane.producers[p].v == item
    ensures var t := Q.ProducerStep(lane, cap, maxSeg, p, item, ok);
      && Q.Inv(t) && t.producers == lane.producers[p := t.producers[p]] && t.consumer == lane.consumer && t.head == lane.head
      && (t.producers[p].Idle? || t.producers[p].v == item)
  {
    Q.ProducerStepKeepsInv(lane, cap, maxSeg, p, item, ok);
    hide Q.Inv;
  }

  /** Producer p's lane and its place in Push change together. */
  lemma LaneChange<P>(s: State<P>, u: bool, lane: Lane<P>, p: nat, pc: Producer<P>)
    requires Lanes(s) && p < |s.producers| && Q.Inv(lane) && s.producers[p].Enqueue? && s.producers[p].item.env.urgent == u
    requires |lane.producers| == |s.producers| && lane.producers == LaneOf(s, u).producers[p := lane.producers[p]]
    requires lane.consumer == LaneOf(s, u).consumer
    requires lane.producers[p].Idle? || (pc == s.producers[p] && lane.producers[p].v == pc.item)
    ensures Lanes(WithLane(Goto(s, p, pc), u, lane))
  {
    hide Q.Inv;
    var t := WithLane(Goto(s, p, pc), u, lane);
    assert Agrees(s, p);
    forall q | 0 <= q < |t.producers| ensures Agrees(t, q) { assert Agrees(s, q); }
  }

  lemma EnqueueKeepsLanes<P>(s: State<P>, cfg: Config, p: nat, ok: bool)
    requires Lanes(s) && p < |s.producers| && s.producers[p].Enqueue?
    ensures Lanes(EnqueueStep(s, cfg, p, ok))
  {
    hide Q.Inv, Q.ProducerStep, Q.Wellformed;
    var item := s.producers[p].item;
    var u := item.env.urgent;
    assert Agrees(s, p);
    LaneAccess(LaneOf(s, u), Cap(cfg, u), cfg.maxSeg, p, item, ok);
    var lane := Q.ProducerStep(LaneOf(s, u), Cap(cfg, u), cfg.maxSeg, p, item, ok);
    LaneChange(s, u, lane, p, EnqueueStep(s, cfg, p, ok).producers[p]);
  }

  /** A step of Push outside any Enqueue. */
  lemma PushChange<P>(s: State<P>, t: State<P>, p: nat)
    requires Lanes(s) && p < |s.producers| && !s.producers[p].Enqueue?
    requires t.urgent == s.urgent && t.normal == s.normal && t.consumer == s.consumer
    requires |t.producers| == |s.producers| && t.producers == s.producers[p := t.producers[p]]
    ensures Lanes(t)
  {
    hide Q.Inv, Q.Wellformed;
    assert Agrees(s, p);
    forall q | 0 <= q < |t.producers| ensures Agrees(t, q) { assert Agrees(s, q); }
  }

  /** What such a step changes. */
  lemma PushStep<P>(s: State<P>, cfg: Config, p: nat, env: Envelope<P>, ok: bool)
    requires LanesFit(s) && p < |s.producers| && !s.producers[p].Enqueue?
    ensures var t := ProducerStep(s, cfg, p, env, ok);
      && t.urgent == s.urgent && t.normal == s.normal && t.consumer == s.consumer
      && |t.producers| == |s.producers| && t.producers == s.producers[p := t.producers[p]]
  {
    hide Q.Inv, Q.Wellformed, EnqueueStep;
  }

  lemma ProducerKeepsLanes<P>(s: State<P>, cfg: Config, p: nat, env: Envelope<P>, ok: bool)
    requires Lanes(s) && p < |s.producers|
    ensures Lanes(ProducerStep(s, cfg, p, env, ok))
  {
    hide Lanes, EnqueueStep, LanesFit;
    if s.producers[p].Enqueue? {
      EnqueueKeepsLanes(s, cfg, p, ok);
    } else {
      PushStep(s, cfg, p, env, ok);
      PushChange(s, ProducerStep(s, cfg, p, env, ok), p);
    }
  }

  lemma DequeueAccess<P>(lane: Lane<P>, ready: bool)
    requires Q.Inv(lane)
    ensures var t := Q.ConsumerStep(lane, ready); Q.Inv(t) && t.producers == lane.producers
  {
    Q.ConsumerStepKeepsInv(lane, ready);
    hide Q.Inv;
  }

  lemma DequeueKeepsLanes<P>(s: State<P>, u: bool)
    requires Lanes(s) && (if u then s.consumer.PopUrgent? else s.consumer.PopNormal?)
    ensures Lanes(DequeueStep(s, u))
  {
    hide Q.Inv, Q.ConsumerStep, Q.Wellformed, FrontReady, Agrees;
    DequeueAccess(LaneOf(s, u), FrontReady(s, u));
    var t := DequeueStep(s, u);
    forall q | 0 <= q < |t.producers| ensures Agrees(t, q) {
      assert Agrees(s, q);
      AgreementStays(s, t, q);
    }
  }

  lemma AgreementStays<P>(s: State<P>, t: State<P>, q: nat)
    requires |s.urgent.producers| == |s.normal.producers| == |s.producers| && q < |s.producers| && Agrees(s, q)
    requires t.urgent.producers == s.urgent.producers && t.normal.producers == s.normal.producers && t.producers == s.producers
    ensures Agrees(t, q)
  {
  }

  lemma StepKeepsLanes<P>(s: State<P>, cfg: Config, m: Move<P>)
    requires Lanes(s)
    ensures Lanes(Step(s, cfg, m))
  {
    match m
    case Produce(p, env, ok) =>
      if p < |s.producers| { ProducerKeepsLanes(s, cfg, p, env, ok); }
    case Consume(pickClosed) =>
      if s.consumer.PopUrgent? { DequeueKeepsLanes(s, true); }
      else if s.consumer.PopNormal? { DequeueKeepsLanes(s, false); }
      else { SameAgreement(s, ConsumerStep(s, pickClosed)); }
    case Close => SameAgreement(s, s.(closed := true));
  }

  lemma SameAgreement<P>(s: State<P>, t: State<P>)
    requires Lanes(s) && t.urgent == s.urgent && t.normal == s.normal && t.producers == s.producers
    requires (!s.consumer.PopUrgent? && !s.consumer.PopNormal?) || t.consumer == s.consumer
    ensures Lanes(t)
  {
    hide Q.Inv, Q.Wellformed;
    forall q | 0 <= q < |t.producers| ensures Agrees(t, q) { assert Agrees(s, q); }
  }

  // ---------------------------------------------------------------- wake-ups

  /** Between claiming a place and announcing it. */
  predicate Announcing<P>(pc: Producer<P>) {
    pc.Publish? || pc.AddSize? || pc.Notify?
  }

  ghost predicate SomeoneAnnouncing<P>(s: State<P>) {
    exists p :: 0 <= p < |s.producers| && Announcing(s.producers[p])
  }

  ghost predicate Signalled<P>(s: State<P>) {
    s.notify || SomeoneAnnouncing(s)
  }

  /** The head segment holds something. */
  predicate HeadHas<P>(lane: Lane<P>) {
    lane.head < |lane.chain| && lane.chain[lane.head].taken < |lane.chain[lane.head].claimed|
  }

  /** Something lies at or after head. */
  ghost predicate Reachable<P>(lane: Lane<P>) {
    exists a :: lane.head <= a < |lane.chain| && lane.chain[a].taken < |lane.chain[a].claimed|
  }

  /** Whatever the run loop has already looked past will be announced to it. */
  ghost predicate WakeUpsKept<P>(s: State<P>) {
    && (s.urgent.consumer.LoadHeadNext? && HeadHas(s.urgent) ==> Signalled(s))
    && (s.normal.consumer.LoadHeadNext? && HeadHas(s.normal) ==> Signalled(s))
    && (s.consumer.PopNormal? && Reachable(s.urgent) ==> Signalled(s))
    && (s.consumer.Wait? && (Reachable(s.urgent) || Reachable(s.normal)) ==> Signalled(s))
  }

  /** The access of p in Enqueue by which a place is claimed. */
  ghost predicate Claims<P>(lane: Lane<P>, cap: nat, maxSeg: Word, p: nat, item: Item<P>, ok: bool)
    requires Q.Wellformed(lane) && p < |lane.producers|
  {
    lane.producers[p].RingPut? && Q.ProducerStep(lane, cap, maxSeg, p, item, ok).producers[p].Idle?
  }

  /** Any other access adds nothing for the run loop to find. */
  lemma NoClaimAddsNothing<P>(lane: Lane<P>, cap: nat, maxSeg: Word, p: nat, item: Item<P>, ok: bool)
    requires Q.Inv(lane) && p < |lane.producers| && !Claims(lane, cap, maxSeg, p, item, ok)
    ensures var t := Q.ProducerStep(lane, cap, maxSeg, p, item, ok);
      && t.consumer == lane.consumer
      && (HeadHas(t) ==> HeadHas(lane)) && (Reachable(t) ==> Reachable(lane))
  {
    hide Q.Entries, Q.InSendOrder, Q.Receipts, Q.RefusedPast, Q.Sends;
    var t := Q.ProducerStep(lane, cap, maxSeg, p, item, ok);
    assert t.chain == lane.chain || t.chain == lane.chain + [Q.Segment([], 0)];
    if Reachable(t) {
      var a :| t.head <= a < |t.chain| && t.chain[a].taken < |t.chain[a].claimed|;
      assert t.chain[a] == lane.chain[a];
    }
  }

  /** Only the claiming access can leave more to announce, and it makes its producer announce it. */
  lemma EnqueueKeepsWakeUps<P>(s: State<P>, cfg: Config, p: nat, ok: bool)
    requires Lanes(s) && p < |s.producers| && s.producers[p].Enqueue? && WakeUpsKept(s)
    ensures WakeUpsKept(EnqueueStep(s, cfg, p, ok))
  {
    var item := s.producers[p].item;
    var u := item.env.urgent;
    var lane, t := LaneOf(s, u), EnqueueStep(s, cfg, p, ok);
    if Claims(lane, Cap(cfg, u), cfg.maxSeg, p, item, ok) {
      assert Announcing(t.producers[p]);
      hide Q.ProducerStep, HeadHas, Reachable, Lanes, Claims, EnqueueStep;
    } else {
      NoClaimAddsNothing(lane, Cap(cfg, u), cfg.maxSeg, p, item, ok);
      SignalsStay(s, t, p);
      hide Q.ProducerStep, Signalled, HeadHas, Reachable, Lanes;
    }
  }

  /** A producer that is not announcing may take a step without a signal being lost. */
  lemma SignalsStay<P>(s: State<P>, t: State<P>, p: nat)
    requires p < |s.producers| == |t.producers| && t.producers == s.producers[p := t.producers[p]]
    requires Announcing(s.producers[p]) ==> Announcing(t.producers[p]) || t.notify
    requires s.notify ==> t.notify
    ensures Signalled(s) ==> Signalled(t)
  {
    if SomeoneAnnouncing(s) {
      var q :| 0 <= q < |s.producers| && Announcing(s.producers[q]);
      assert t.producers[q] == if q == p then t.producers[p] else s.producers[q];
    }
  }

  lemma ProducerKeepsWakeUps<P>(s: State<P>, cfg: Config, p: nat, env: Envelope<P>, ok: bool)
    requires Lanes(s) && p < |s.producers| && WakeUpsKept(s)
    ensures WakeUpsKept(ProducerStep(s, cfg, p, env, ok))
  {
    hide EnqueueStep, Lanes, LanesFit;
    if s.producers[p].Enqueue? {
      EnqueueKeepsWakeUps(s, cfg, p, ok);
    } else {
      PushStep(s, cfg, p, env, ok);
      SignalsStay(s, ProducerStep(s, cfg, p, env, ok), p);
      hide Signalled, HeadHas, Reachable;
    }
  }

  /** A front that the run loop finds not ready is being announced by whoever claimed it. */
  lemma MissedFrontIsAnnounced<P>(s: State<P>, u: bool)
    requires LanesFit(s) && HeadHas(LaneOf(s, u)) && !FrontReady(s, u)
    ensures Signalled(s)
  {
    var lane := LaneOf(s, u);
    var p :| 0 <= p < |s.producers| && Withholds(s.producers[p], u, lane.head, lane.chain[lane.head].taken);
    assert Announcing(s.producers[p]);
  }

  /** One access of Dequeue: what it can mean for what the run loop has looked past. */
  lemma DequeueLooks<P>(lane: Lane<P>, ready: bool)
    requires Q.Inv(lane)
    ensures var t := Q.ConsumerStep(lane, ready);
      && (t.consumer.LoadHeadNext? ==> lane.consumer.RingTake? && t.chain == lane.chain && t.head == lane.head && (HeadHas(lane) ==> !ready))
      && (t.consumer.Waiting? && !lane.consumer.RingTake? ==>
          lane.consumer.LoadHeadNext? && t.chain == lane.chain && t.head == lane.head && (Reachable(t) ==> HeadHas(lane)))
  {
    hide Q.Entries, Q.InSendOrder, Q.Receipts, Q.RefusedPast, Q.Sends;
  }

  lemma DequeueKeepsWakeUps<P>(s: State<P>, u: bool)
    requires Lanes(s) && (if u then s.consumer.PopUrgent? else s.consumer.PopNormal?) && WakeUpsKept(s)
    ensures WakeUpsKept(DequeueStep(s, u))
  {
    var lane, ready, t := LaneOf(s, u), FrontReady(s, u), DequeueStep(s, u);
    DequeueLooks(lane, ready);
    if HeadHas(lane) && !ready { MissedFrontIsAnnounced(s, u); }
    assert Signalled(s) ==> Signalled(t) by {
      assert t.producers == s.producers && t.notify == s.notify;
      if SomeoneAnnouncing(s) { assert SomeoneAnnouncing(t); }
    }
    hide Q.ConsumerStep, Q.Inv, Q.Wellformed, Signalled, HeadHas, Reachable, FrontReady, Agrees;
  }

  lemma StepKeepsWakeUps<P>(s: State<P>, cfg: Config, m: Move<P>)
    requires Lanes(s) && WakeUpsKept(s)
    ensures WakeUpsKept(Step(s, cfg, m))
  {
    match m
    case Produce(p, env, ok) =>
      if p < |s.producers| { ProducerKeepsWakeUps(s, cfg, p, env, ok); }
    case Consume(pickClosed) =>
      if s.consumer.PopUrgent? { DequeueKeepsWakeUps(s, true); }
      else if s.consumer.PopNormal? { DequeueKeepsWakeUps(s, false); }
      else { RestKeepsWakeUps(s, ConsumerStep(s, pickClosed)); }
    case Close => RestKeepsWakeUps(s, s.(closed := true));
  }

  /** The run loop outside Pop takes the token only to look at everything again. */
  lemma RestKeepsWakeUps<P>(s: State<P>, t: State<P>)
    requires Lanes(s) && WakeUpsKept(s) && t.urgent == s.urgent && t.normal == s.normal && t.producers == s.producers
    requires (t.notify == s.notify && t.consumer == s.consumer) || (!s.consumer.PopUrgent? && !s.consumer.PopNormal? && !t.consumer.PopNormal? && !t.consumer.Wait?)
    ensures WakeUpsKept(t)
  {
    hide Q.Inv, Q.Wellformed, HeadHas, Reachable, Agrees;
  }

  // ---------------------------------------------------------------- the counter

  /** How many producers hold a place the counter does not count yet. */
  function Uncounted<P>(producers: seq<Producer<P>>): nat {
    if producers == [] then 0
    else
      var last := producers[|producers| - 1];
      Uncounted(producers[..|producers| - 1]) + if last.Publish? || last.AddSize? then 1 else 0
  }

  lemma {:induction false} UncountedUpdate<P>(producers: seq<Producer<P>>, p: nat, pc: Producer<P>)
    requires p < |producers|
    ensures Uncounted(producers[p := pc]) == Uncounted(producers)
      - (if producers[p].Publish? || producers[p].AddSize? then 1 else 0)
      + (if pc.Publish? || pc.AddSize? then 1 else 0)
  {
    var last := |producers| - 1;
    if p == last {
      assert producers[p := pc][..last] == producers[..last];
    } else {
      assert producers[p := pc][..last] == producers[..last][p := pc];
      UncountedUpdate(producers[..last], p, pc);
    }
  }

  lemma {:induction false} NoneUncounted<P>(producers: seq<Producer<P>>)
    requires forall p :: 0 <= p < |producers| ==> producers[p].Idle?
    ensures Uncounted(producers) == 0
  {
    if producers != [] { NoneUncounted(producers[..|producers| - 1]); }
  }

  /** All that has been claimed in a lane and not taken, whether or not it can still be reached. */
  function Total<P>(lane: Lane<P>): int {
    L.Untaken(lane.chain, |lane.chain|)
  }

  /** The counter is the number claimed and not taken, apart from calls between a lane and the counter. */
  ghost predicate SizeExplained<P>(s: State<P>) {
    s.size == Total(s.urgent) + Total(s.normal) - Uncounted(s.producers) + if s.consumer.SubSize? then 1 else 0
  }

  lemma EnqueueCounts<P>(s: State<P>, cfg: Config, p: nat, ok: bool)
    requires Lanes(s) && p < |s.producers| && s.producers[p].Enqueue? && SizeExplained(s)
    ensures SizeExplained(EnqueueStep(s, cfg, p, ok))
  {
    hide Q.Inv, Q.ProducerStep, Q.Wellformed, Total, Uncounted, Agrees;
    var item := s.producers[p].item;
    var u := item.env.urgent;
    var lane, t := LaneOf(s, u), EnqueueStep(s, cfg, p, ok);
    LaneCounts(lane, Cap(cfg, u), cfg.maxSeg, p, item, ok);
    UncountedUpdate(s.producers, p, t.producers[p]);
  }

  lemma LaneCounts<P>(lane: Lane<P>, cap: nat, maxSeg: Word, p: nat, item: Item<P>, ok: bool)
    requires Q.Inv(lane) && p < |lane.producers|
    ensures var t := Q.ProducerStep(lane, cap, maxSeg, p, item, ok);
      p < |t.producers| && Total(t) == Total(lane) + if lane.producers[p].RingPut? && t.producers[p].Idle? then 1 else 0
  {
    L.ProducerCounts(lane, cap, maxSeg, p, item, ok);
    Q.ProducerStepKeepsInv(lane, cap, maxSeg, p, item, ok);
    hide Q.Inv, L.Untaken;
  }

  lemma DequeueCounts<P>(s: State<P>, u: bool)
    requires Lanes(s) && (if u then s.consumer.PopUrgent? else s.consumer.PopNormal?) && SizeExplained(s)
    ensures SizeExplained(DequeueStep(s, u))
  {
    hide Q.Inv, Q.ConsumerStep, Q.Wellformed, L.Untaken, Uncounted, Agrees, FrontReady;
    L.ConsumerCounts(LaneOf(s, u), FrontReady(s, u));
  }

  lemma StepKeepsSize<P>(s: State<P>, cfg: Config, m: Move<P>)
    requires Lanes(s) && SizeExplained(s)
    ensures SizeExplained(Step(s, cfg, m))
  {
    hide Lanes, EnqueueStep, DequeueStep, LanesFit, Uncounted, Total;
    match m
    case Produce(p, env, ok) =>
      if p < |s.producers| {
        if s.producers[p].Enqueue? {
          EnqueueCounts(s, cfg, p, ok);
        } else {
          PushStep(s, cfg, p, env, ok);
          UncountedUpdate(s.producers, p, ProducerStep(s, cfg, p, env, ok).producers[p]);
        }
      }
    case Consume(pickClosed) =>
      if s.consumer.PopUrgent? { DequeueCounts(s, true); }
      else if s.consumer.PopNormal? { DequeueCounts(s, false); }
    case Close =>
  }

  // ---------------------------------------------------------------- the log

  /** 1 for an item whose append succeeded and whose envelope is e. */
  ghost function Counts<P>(item: Item<P>, e: Envelope<P>): nat {
    if item.logged && item.env == e then 1 else 0
  }

  /** How often e was logged and claimed among these messages. */
  ghost function LoggedOf<P>(claimed: seq<Q.Message<Item<P>>>, e: Envelope<P>): nat {
    if claimed == [] then 0
    else LoggedOf(claimed[..|claimed| - 1], e) + Counts(claimed[|claimed| - 1].v, e)
  }

  /** The same for the first k segments: everything ever claimed there, received or not. */
  ghost function LoggedIn<P>(chain: seq<Q.Segment<Item<P>>>, k: nat, e: Envelope<P>): nat
    requires k <= |chain|
  {
    if k == 0 then 0 else LoggedIn(chain, k - 1, e) + LoggedOf(chain[k - 1].claimed, e)
  }

  ghost function AllLogged<P>(lane: Lane<P>, e: Envelope<P>): nat {
    LoggedIn(lane.chain, |lane.chain|, e)
  }

  /** Logged, and on its way into a lane. */
  ghost function Carries<P>(pc: Producer<P>, e: Envelope<P>): nat {
    if pc.Enqueue? || pc.RecheckClosed? then Counts(pc.item, e) else 0
  }

  ghost function Carried<P>(producers: seq<Producer<P>>, e: Envelope<P>): nat {
    if producers == [] then 0 else Carried(producers[..|producers| - 1], e) + Carries(producers[|producers| - 1], e)
  }

  lemma {:induction false} CarriedUpdate<P>(producers: seq<Producer<P>>, p: nat, pc: Producer<P>, e: Envelope<P>)
    requires p < |producers|
    ensures Carried(producers[p := pc], e) == Carried(producers, e) - Carries(producers[p], e) + Carries(pc, e)
  {
    hide Carries;
    var last := |producers| - 1;
    if p == last {
      assert producers[p := pc][..last] == producers[..last];
    } else {
      assert producers[p := pc][..last] == producers[..last][p := pc];
      CarriedUpdate(producers[..last], p, pc, e);
    }
  }

  lemma {:induction false} NothingCarried<P>(n: nat, e: Envelope<P>)
    ensures Carried(seq(n, _ => Producer<P>.Idle), e) == 0
  {
    if n > 0 {
      NothingCarried<P>(n - 1, e);
      assert seq(n, _ => Producer<P>.Idle)[..n - 1] == seq(n - 1, _ => Producer<P>.Idle);
    }
  }

  /** Claiming a place counts its item. */
  lemma {:induction false} LoggedAfterClaim<P>(chain: seq<Q.Segment<Item<P>>>, t: nat, m: Q.Message<Item<P>>, k: nat, e: Envelope<P>)
    requires t < |chain| && k <= |chain|
    ensures LoggedIn(chain[t := chain[t].(claimed := chain[t].claimed + [m])], k, e) == LoggedIn(chain, k, e) + if t < k then Counts(m.v, e) else 0
  {
    hide Counts;
    if k > 0 {
      LoggedAfterClaim(chain, t, m, k - 1, e);
      assert (chain[t].claimed + [m])[..|chain[t].claimed|] == chain[t].claimed;
    }
  }

  /** Chains with the same messages in the segments they share. */
  lemma {:induction false} SameLogged<P>(chain: seq<Q.Segment<Item<P>>>, other: seq<Q.Segment<Item<P>>>, k: nat, e: Envelope<P>)
    requires k <= |chain| && k <= |other| && forall a :: 0 <= a < k ==> other[a].claimed == chain[a].claimed
    ensures LoggedIn(other, k, e) == LoggedIn(chain, k, e)
  {
    if k > 0 { SameLogged(chain, other, k - 1, e); }
  }

  lemma LaneLogs<P>(lane: Lane<P>, cap: nat, maxSeg: Word, p: nat, item: Item<P>, ok: bool, e: Envelope<P>)
    requires Q.Inv(lane) && p < |lane.producers| && (lane.producers[p].Idle? || lane.producers[p].v == item)
    ensures var t := Q.ProducerStep(lane, cap, maxSeg, p, item, ok);
      && p < |t.producers|
      && AllLogged(t, e) == AllLogged(lane, e) + if lane.producers[p].RingPut? && t.producers[p].Idle? then Counts(item, e) else 0
  {
    hide LoggedIn, Counts, Q.Entries, Q.InSendOrder, Q.Receipts, Q.RefusedPast, Q.Sends;
    var t, pc := Q.ProducerStep(lane, cap, maxSeg, p, item, ok), lane.producers[p];
    if pc.RingPut? && t.producers[p].Idle? {
      LoggedAfterClaim(lane.chain, pc.t, t.chain[pc.t].claimed[|lane.chain[pc.t].claimed|], |lane.chain|, e);
    } else if pc.CasNext? && pc.t + 1 == |lane.chain| {
      SameLogged(lane.chain, t.chain, |lane.chain|, e);
      EmptyLogs(t.chain, e);
    }
  }

  lemma EmptyLogs<P>(chain: seq<Q.Segment<Item<P>>>, e: Envelope<P>)
    requires chain != [] && chain[|chain| - 1].claimed == []
    ensures LoggedIn(chain, |chain|, e) == LoggedIn(chain, |chain| - 1, e)
  {
  }

  /** Each appended envelope that is in a lane, or on its way into one, is in the log, as often as there are such messages. */
  ghost predicate LogCovers<P>(s: State<P>, e: Envelope<P>) {
    AllLogged(s.urgent, e) + AllLogged(s.normal, e) + Carried(s.producers, e) <= multiset(s.log)[e]
  }

  lemma EnqueueLogs<P>(s: State<P>, cfg: Config, p: nat, ok: bool, e: Envelope<P>)
    requires Lanes(s) && p < |s.producers| && s.producers[p].Enqueue? && LogCovers(s, e)
    ensures LogCovers(EnqueueStep(s, cfg, p, ok), e)
  {
    hide Q.Inv, Q.ProducerStep, Q.Wellformed, AllLogged, Carried, Counts;
    var item := s.producers[p].item;
    var u := item.env.urgent;
    assert Agrees(s, p);
    var lane, t := LaneOf(s, u), EnqueueStep(s, cfg, p, ok);
    LaneLogs(lane, Cap(cfg, u), cfg.maxSeg, p, item, ok, e);
    CarriedUpdate(s.producers, p, t.producers[p], e);
  }

  lemma DequeueLogs<P>(lane: Lane<P>, ready: bool, e: Envelope<P>)
    requires Q.Inv(lane)
    ensures AllLogged(Q.ConsumerStep(lane, ready), e) == AllLogged(lane, e)
  {
    hide LoggedIn, Q.Entries, Q.InSendOrder, Q.Receipts, Q.RefusedPast, Q.Sends;
    SameLogged(lane.chain, Q.ConsumerStep(lane, ready).chain, |lane.chain|, e);
  }

  lemma PushLogs<P>(s: State<P>, cfg: Config, p: nat, env: Envelope<P>, ok: bool, e: Envelope<P>)
    requires LanesFit(s) && p < |s.producers| && !s.producers[p].Enqueue? && LogCovers(s, e)
    ensures LogCovers(ProducerStep(s, cfg, p, env, ok), e)
  {
    var t := ProducerStep(s, cfg, p, env, ok);
    PushStep(s, cfg, p, env, ok);
    CarriedUpdate(s.producers, p, t.producers[p], e);
    assert t.log == s.log || t.log == s.log + [s.producers[p].env];
    hide LanesFit, AllLogged, Carried, EnqueueStep;
  }

  lemma PopLogs<P>(s: State<P>, u: bool, e: Envelope<P>)
    requires Lanes(s) && (if u then s.consumer.PopUrgent? else s.consumer.PopNormal?) && LogCovers(s, e)
    ensures LogCovers(DequeueStep(s, u), e)
  {
    hide AllLogged, Carried, Q.Inv, Q.ConsumerStep, FrontReady, Agrees, Q.Wellformed;
    DequeueLogs(LaneOf(s, u), FrontReady(s, u), e);
  }

  lemma EnqueueIsTheStep<P>(s: State<P>, cfg: Config, p: nat, env: Envelope<P>, ok: bool)
    requires LanesFit(s) && p < |s.producers| && s.producers[p].Enqueue?
    ensures ProducerStep(s, cfg, p, env, ok) == EnqueueStep(s, cfg, p, ok)
  {
  }

  lemma StepKeepsLog<P>(s: State<P>, cfg: Config, m: Move<P>, e: Envelope<P>)
    requires Lanes(s) && LogCovers(s, e)
    ensures LogCovers(Step(s, cfg, m), e)
  {
    hide EnqueueStep, DequeueStep, ProducerStep, Lanes, LanesFit, AllLogged, Carried;
    match m
    case Produce(p, env, ok) =>
      if p < |s.producers| {
        if s.producers[p].Enqueue? {
          EnqueueLogs(s, cfg, p, ok, e);
          EnqueueIsTheStep(s, cfg, p, env, ok);
        } else {
          PushLogs(s, cfg, p, env, ok, e);
        }
      }
    case Consume(pickClosed) =>
      if s.consumer.PopUrgent? { PopLogs(s, true, e); }
      else if s.consumer.PopNormal? { PopLogs(s, false, e); }
    case Close =>
  }

  // ---------------------------------------------------------------- every run

  ghost predicate Inv<P>(s: State<P>)
    ensures Inv(s) ==> LanesFit(s)
  {
    Lanes(s) && WakeUpsKept(s) && SizeExplained(s)
  }

  lemma InitInv<P>(n: nat)
    ensures Inv(Init<P>(n))
  {
    var s := Init<P>(n);
    InitLanes<P>(n);
    NoneUncounted(s.producers);
    OneEmptySegment(s.urgent);
    OneEmptySegment(s.normal);
    assert !HeadHas(s.urgent) && !HeadHas(s.normal);
  }

  lemma OneEmptySegment<P>(lane: Lane<P>)
    requires lane.chain == [Q.Segment([], 0)]
    ensures Total(lane) == 0
  {
    L.EmptyCounts(lane.chain);
  }

  lemma StepKeepsInv<P>(s: State<P>, cfg: Config, m: Move<P>)
    requires Inv(s)
    ensures Inv(Step(s, cfg, m))
  {
    StepKeepsLanes(s, cfg, m);
    StepKeepsWakeUps(s, cfg, m);
    StepKeepsSize(s, cfg, m);
    hide Step, Lanes, WakeUpsKept, SizeExplained;
  }

  ghost function Run<P>(s: State<P>, cfg: Config, schedule: seq<Move<P>>): (t: State<P>)
    requires Lanes(s)
    ensures Lanes(t)
    decreases |schedule|
  {
    if schedule == [] then s
    else
      var before := Run(s, cfg, schedule[..|schedule| - 1]);
      StepKeepsLanes(before, cfg, schedule[|schedule| - 1]);
      Step(before, cfg, schedule[|schedule| - 1])
  }

  ghost function Started<P>(n: nat): (s: State<P>)
    ensures Lanes(s) && s == Init(n)
  {
    InitLanes<P>(n);
    Init(n)
  }

  lemma {:induction false} RunKeepsInv<P>(n: nat, cfg: Config, schedule: seq<Move<P>>)
    ensures Inv(Run(Started<P>(n), cfg, schedule))
    decreases |schedule|
  {
    if schedule == [] {
      InitInv<P>(n);
    } else {
      var last := |schedule| - 1;
      RunKeepsInv<P>(n, cfg, schedule[..last]);
      StepKeepsInv(Run(Started<P>(n), cfg, schedule[..last]), cfg, schedule[last]);
      hide Inv, Step, Lanes;
    }
  }

  // ---------------------------------------------------------------- what every run promises

  /**
    If the run loop is in Wait while either lane holds something at or after its head, a token
    is there or on its way.
   */
  lemma NoLostWakeUp<P>(n: nat, cfg: Config, schedule: seq<Move<P>>)
    ensures var s := Run(Started<P>(n), cfg, schedule);
      s.consumer.Wait? && (Reachable(s.urgent) || Reachable(s.normal)) ==>
        s.notify || exists p :: 0 <= p < |s.producers| && Announcing(s.producers[p])
  {
    RunKeepsInv(n, cfg, schedule);
  }

  /** Held or stranded: at or after head, or behind it. */
  lemma TotalSplits<P>(lane: Lane<P>)
    requires Q.Inv(lane)
    ensures Total(lane) == L.Held(lane) + L.Stranded(lane) && L.Held(lane) >= 0 && L.Stranded(lane) >= 0
    ensures L.Held(lane) == 0 <==> !Reachable(lane)
  {
    L.UntakenGrows(lane.chain, lane.head, |lane.chain|);
  }

  ghost predicate Quiet<P>(s: State<P>) {
    forall p :: 0 <= p < |s.producers| ==> s.producers[p].Idle?
  }

  /** With no call in progress, Len is exactly what the lanes hold and what they have stranded. */
  lemma QuietLenIsExact<P>(n: nat, cfg: Config, schedule: seq<Move<P>>)
    requires Quiet(Run(Started<P>(n), cfg, schedule)) && !Run(Started<P>(n), cfg, schedule).consumer.SubSize?
    ensures var s := Run(Started<P>(n), cfg, schedule);
      && s.urgent.head <= |s.urgent.chain| && s.normal.head <= |s.normal.chain|
      && s.size == L.Held(s.urgent) + L.Stranded(s.urgent) + L.Held(s.normal) + L.Stranded(s.normal)
  {
    var s := Run(Started<P>(n), cfg, schedule);
    RunKeepsInv(n, cfg, schedule);
    NoneUncounted(s.producers);
    TotalSplits(s.urgent);
    TotalSplits(s.normal);
  }

  /** With no call in progress and the run loop stuck in Wait, the lanes hold nothing it could reach, and Len is what is stranded. */
  lemma BlockedAndQuietLeavesOnlyStranded<P>(n: nat, cfg: Config, schedule: seq<Move<P>>)
    requires var s := Run(Started<P>(n), cfg, schedule); Quiet(s) && s.consumer.Wait? && !s.notify
    ensures var s := Run(Started<P>(n), cfg, schedule);
      && s.urgent.head <= |s.urgent.chain| && s.normal.head <= |s.normal.chain|
      && L.Held(s.urgent) == 0 && L.Held(s.normal) == 0
      && s.size == L.Stranded(s.urgent) + L.Stranded(s.normal)
  {
    var s := Run(Started<P>(n), cfg, schedule);
    RunKeepsInv(n, cfg, schedule);
    QuietLenIsExact(n, cfg, schedule);
    TotalSplits(s.urgent);
    TotalSplits(s.normal);
  }

  lemma StepKeepsSingle<P>(s: State<P>, cfg: Config, m: Move<P>)
    requires Lanes(s) && cfg.maxSeg <= 1 && L.Single(s.urgent) && L.Single(s.normal)
    ensures L.Single(Step(s, cfg, m).urgent) && L.Single(Step(s, cfg, m).normal)
  {
    hide L.Single, Q.Inv, Q.Wellformed, Agrees, FrontReady, Q.ProducerStep, Q.ConsumerStep;
    match m
    case Produce(p, env, ok) =>
      if p < |s.producers| && s.producers[p].Enqueue? {
        var item := s.producers[p].item;
        var u := item.env.urgent;
        L.StepKeepsSingle(LaneOf(s, u), Cap(cfg, u), cfg.maxSeg, Q.Produce(p, item, ok));
      }
    case Consume(pickClosed) =>
      if s.consumer.PopUrgent? { L.StepKeepsSingle(s.urgent, 0, cfg.maxSeg, Q.Consume(FrontReady(s, true))); }
      if s.consumer.PopNormal? { L.StepKeepsSingle(s.normal, 0, cfg.maxSeg, Q.Consume(FrontReady(s, false))); }
    case Close =>
  }

  /** With a budget of one segment no value is ever behind head. */
  lemma {:induction false} OneSegmentStrandsNothing<P>(n: nat, cfg: Config, schedule: seq<Move<P>>)
    requires cfg.maxSeg <= 1
    ensures var s := Run(Started<P>(n), cfg, schedule);
      && L.Single(s.urgent) && L.Single(s.normal)
      && L.Stranded(s.urgent) == 0 && L.Stranded(s.normal) == 0
    decreases |schedule|
  {
    if schedule != [] {
      var last := |schedule| - 1;
      OneSegmentStrandsNothing(n, cfg, schedule[..last]);
      StepKeepsSingle(Run(Started<P>(n), cfg, schedule[..last]), cfg, schedule[last]);
    }
  }

  /**
    Every message of a lane whose append succeeded is in the log, at every moment and as often
    as there are such messages, whether it waits, has been handled or is stranded.
   */
  lemma LogCoversLanes<P>(n: nat, cfg: Config, schedule: seq<Move<P>>, e: Envelope<P>)
    ensures var s := Run(Started<P>(n), cfg, schedule);
      AllLogged(s.urgent, e) + AllLogged(s.normal, e) <= multiset(s.log)[e]
  {
    EmptyLogs(Started<P>(n).urgent.chain, e);
    NothingCarried<P>(n, e);
    RunKeepsLog(Started<P>(n), cfg, schedule, e);
  }

  lemma {:induction false} RunKeepsLog<P>(s: State<P>, cfg: Config, schedule: seq<Move<P>>, e: Envelope<P>)
    requires Lanes(s) && LogCovers(s, e)
    ensures LogCovers(Run(s, cfg, schedule), e)
    decreases |schedule|
  {
    hide LogCovers, Step;
    if schedule != [] {
      var last := |schedule| - 1;
      RunKeepsLog(s, cfg, schedule[..last], e);
      StepKeepsLog(Run(s, cfg, schedule[..last]), cfg, schedule[last], e);
    }
  }

  /** What Pop hands out of a lane from one producer is a subsequence of what that producer passed to the lane, in order. */
  lemma PopKeepsSenderOrder<P>(n: nat, cfg: Config, schedule: seq<Move<P>>, u: bool, p: nat)
    requires p < |Run(Started<P>(n), cfg, schedule).producers|
    ensures var lane := LaneOf(Run(Started<P>(n), cfg, schedule), u);
      p < |lane.sent| && Q.Picks(Q.FromProducer(lane.received, p), lane.sent[p], |lane.sent[p]|)
  {
    var lane := LaneOf(Run(Started<P>(n), cfg, schedule), u);
    Q.SubsequenceUpTo(lane, p, |lane.received|, |lane.sent[p]|);
    assert lane.received[..|lane.received|] == lane.received;
  }
}
