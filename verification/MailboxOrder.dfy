/**
  What the run loop is handed, against what was pushed: every envelope taken from a lane is
  handled once and in the lane's order, each sender's in the order of its pushes, and a normal
  one only when that Pop has found nothing urgent. For every schedule.
 */
module MailboxOrder {
  import opened Words
  import Q = SegmentedSteps
  import C = SegmentCalls
  import opened MailboxSteps

  // ---------------------------------------------------------------- the lanes under the mailbox's steps

  lemma EnqueueLane<P>(s: State<P>, cfg: Config, p: nat, ok: bool, u: bool)
    requires LanesFit(s) && p < |s.producers| && s.producers[p].Enqueue?
    ensures LaneOf(EnqueueStep(s, cfg, p, ok), u) ==
      if s.producers[p].item.env.urgent == u then Q.ProducerStep(LaneOf(s, u), Cap(cfg, u), cfg.maxSeg, p, s.producers[p].item, ok)
      else LaneOf(s, u)
  {
    hide Q.Wellformed, Q.ProducerStep;
  }

  lemma DequeueLane<P>(s: State<P>, w: bool, u: bool)
    requires LanesFit(s)
    ensures LaneOf(DequeueStep(s, w), u) == if w == u then Q.ConsumerStep(LaneOf(s, u), FrontReady(s, u)) else LaneOf(s, u)
  {
    hide Q.Wellformed, Q.ConsumerStep, FrontReady;
  }

  lemma ConsumeIs<P>(s: State<P>, pickClosed: bool)
    requires LanesFit(s)
    ensures s.consumer.PopUrgent? ==> ConsumerStep(s, pickClosed) == DequeueStep(s, true)
    ensures s.consumer.PopNormal? ==> ConsumerStep(s, pickClosed) == DequeueStep(s, false)
    ensures !s.consumer.PopUrgent? && !s.consumer.PopNormal? ==>
      forall u :: LaneOf(ConsumerStep(s, pickClosed), u) == LaneOf(s, u)
  {
    hide Q.Wellformed, DequeueStep;
  }

  /** Each step of the mailbox is one step of one lane, or of none. */
  lemma LaneMoves<P>(s: State<P>, cfg: Config, m: Move<P>, u: bool)
    requires Lanes(s)
    ensures LanesFit(Step(s, cfg, m))
    ensures var lane, t := LaneOf(s, u), LaneOf(Step(s, cfg, m), u);
      if m.Produce? && m.p < |s.producers| && s.producers[m.p].Enqueue? && s.producers[m.p].item.env.urgent == u then
        t == Q.ProducerStep(lane, Cap(cfg, u), cfg.maxSeg, m.p, s.producers[m.p].item, m.ok)
      else if m.Consume? && (if u then s.consumer.PopUrgent? else s.consumer.PopNormal?) then
        t == Q.ConsumerStep(lane, FrontReady(s, u))
      else t == lane
  {
    hide Lanes, LanesFit, ProducerStep, ConsumerStep, EnqueueStep, DequeueStep, Q.ProducerStep, Q.ConsumerStep, FrontReady;
    StepKeepsLanes(s, cfg, m);
    match m
    case Produce(p, env, ok) =>
      if p < |s.producers| {
        if s.producers[p].Enqueue? {
          EnqueueIsTheStep(s, cfg, p, env, ok);
          EnqueueLane(s, cfg, p, ok, u);
        } else {
          PushStep(s, cfg, p, env, ok);
        }
      }
    case Consume(pickClosed) =>
      ConsumeIs(s, pickClosed);
      if s.consumer.PopUrgent? { DequeueLane(s, true, u); }
      if s.consumer.PopNormal? { DequeueLane(s, false, u); }
    case Close =>
  }

  // ---------------------------------------------------------------- one for one

  /** Every item passed to a lane belongs there. */
  ghost predicate Routed<P>(lane: Lane<P>, u: bool) {
    forall p, k :: 0 <= p < |lane.sent| && 0 <= k < |lane.sent[p]| ==> lane.sent[p][k].env.urgent == u
  }

  lemma StepKeepsRouted<P>(s: State<P>, cfg: Config, m: Move<P>, u: bool)
    requires Lanes(s) && Routed(LaneOf(s, u), u)
    ensures Lanes(Step(s, cfg, m)) && Routed(LaneOf(Step(s, cfg, m), u), u)
  {
    StepKeepsLanes(s, cfg, m);
    LaneMoves(s, cfg, m, u);
    var lane, t := LaneOf(s, u), LaneOf(Step(s, cfg, m), u);
    hide Step, LanesFit, FrontReady, Q.ProducerStep, Q.Wellformed;
    if m.Consume? { LaneSends(lane, FrontReady(s, u)); }
    if m.Produce? && m.p < |s.producers| && s.producers[m.p].Enqueue? && s.producers[m.p].item.env.urgent == u {
      assert Agrees(s, m.p);
      SentGrows(lane, Cap(cfg, u), cfg.maxSeg, m.p, s.producers[m.p].item, m.ok);
    }
  }

  /** One access of an Enqueue records its item when it begins the call, and nothing else. */
  lemma SentGrows<P>(lane: Lane<P>, cap: nat, maxSeg: Word, p: nat, item: Item<P>, ok: bool)
    requires Q.Inv(lane) && p < |lane.producers|
    ensures var t := Q.ProducerStep(lane, cap, maxSeg, p, item, ok);
      && p < |lane.sent| && |t.sent| == |lane.sent|
      && t.sent == lane.sent[p := lane.sent[p] + if lane.producers[p].Idle? then [item] else []]
  {
    hide Q.Entries, Q.InSendOrder, Q.Receipts, Q.RefusedPast;
    assert lane.sent[p] + [] == lane.sent[p];
  }

  lemma LaneSends<P>(lane: Lane<P>, ready: bool)
    requires Q.Wellformed(lane)
    ensures Q.ConsumerStep(lane, ready).sent == lane.sent
  {
  }

  lemma ReceivedBelongs<P>(lane: Lane<P>, u: bool, x: nat)
    requires Q.Inv(lane) && Routed(lane, u) && x < |lane.received|
    ensures lane.received[x].m.v.env.urgent == u
  {
    var r := lane.received[x];
    assert Q.ReceiptOk(lane, r);
    assert Q.EntryOk(lane, lane.chain[r.seg].claimed[r.idx], r.seg);
  }

  /** The envelopes handled so far, in order. */
  ghost function Handled<P>(s: State<P>, cfg: Config, schedule: seq<Move<P>>): seq<Envelope<P>>
    requires Lanes(s)
    decreases |schedule|
  {
    if schedule == [] then []
    else
      var last := |schedule| - 1;
      Handled(s, cfg, schedule[..last]) + HandledBy(Run(s, cfg, schedule[..last]), schedule[last])
  }

  /** The handler returns. */
  function HandledBy<P>(s: State<P>, m: Move<P>): seq<Envelope<P>> {
    if m.Consume? && s.consumer.Handle? then [s.consumer.env] else []
  }

  function OfLane<P>(es: seq<Envelope<P>>, u: bool): seq<Envelope<P>> {
    if es == [] then []
    else OfLane(es[..|es| - 1], u) + if es[|es| - 1].urgent == u then [es[|es| - 1]] else []
  }

  lemma {:induction false} OfLaneAdds<P>(a: seq<Envelope<P>>, b: seq<Envelope<P>>, u: bool)
    ensures OfLane(a + b, u) == OfLane(a, u) + OfLane(b, u)
    decreases |b|
  {
    if b == [] {
      assert a + b == a;
    } else {
      OfLaneAdds(a, b[..|b| - 1], u);
      assert (a + b)[..|a + b| - 1] == a + b[..|b| - 1];
    }
  }

  /** Popped, and not handled yet. */
  function InHand<P>(s: State<P>): seq<Envelope<P>> {
    if s.consumer.SubSize? || s.consumer.Handle? then [s.consumer.env] else []
  }

  function Envelopes<P>(received: seq<Q.Receipt<Item<P>>>): (es: seq<Envelope<P>>)
    ensures |es| == |received| && forall x :: 0 <= x < |es| ==> es[x] == received[x].m.v.env
  {
    seq(|received|, x requires 0 <= x < |received| => received[x].m.v.env)
  }

  /** What a step adds to a lane's receipts. */
  function Arrived<P>(lane: Lane<P>, t: Lane<P>): seq<Envelope<P>> {
    if |lane.received| <= |t.received| then Envelopes(t.received[|lane.received|..]) else []
  }

  lemma ArrivedAdds<P>(lane: Lane<P>, t: Lane<P>)
    requires lane.received <= t.received
    ensures Envelopes(t.received) == Envelopes(lane.received) + Arrived(lane, t)
  {
  }

  /** An access of Dequeue that ends the call with a value gives the run loop the envelope of the new receipt. */
  lemma DequeueHands<P>(s: State<P>, u: bool)
    requires Lanes(s) && (if u then s.consumer.PopUrgent? else s.consumer.PopNormal?)
    ensures var t := DequeueStep(s, u); var lane, lane' := LaneOf(s, u), LaneOf(t, u);
      && LaneOf(t, !u) == LaneOf(s, !u)
      && lane.received <= lane'.received
      && (t.consumer.SubSize? <==> |lane'.received| == |lane.received| + 1)
      && (t.consumer.SubSize? ==> t.consumer.env == lane'.received[|lane.received|].m.v.env)
      && (!t.consumer.SubSize? ==> lane'.received == lane.received && !t.consumer.Handle?)
  {
    hide Q.Entries, Q.InSendOrder, Q.Receipts, Q.RefusedPast, Q.Sends, FrontReady, Agrees;
  }

  lemma OneOfLane<P>(e: Envelope<P>, u: bool)
    ensures OfLane([e], u) == if e.urgent == u then [e] else []
  {
    assert [e][..0] == [];
  }

  lemma OneArrived<P>(lane: Lane<P>, t: Lane<P>)
    requires |t.received| == |lane.received| + 1
    ensures Arrived(lane, t) == [t.received[|lane.received|].m.v.env]
  {
  }

  lemma PushReceivesNothing<P>(s: State<P>, cfg: Config, m: Move<P>, u: bool)
    requires Lanes(s) && !m.Consume?
    ensures var t := Step(s, cfg, m); t.consumer == s.consumer && LaneOf(t, u).received == LaneOf(s, u).received
  {
    LaneMoves(s, cfg, m, u);
    if m.Produce? && m.p < |s.producers| {
      if s.producers[m.p].Enqueue? {
        EnqueueIsTheStep(s, cfg, m.p, m.env, m.ok);
        if s.producers[m.p].item.env.urgent == u { LaneReceivesNothing(LaneOf(s, u), Cap(cfg, u), cfg.maxSeg, m.p, s.producers[m.p].item, m.ok); }
      } else {
        PushStep(s, cfg, m.p, m.env, m.ok);
      }
    }
    hide ProducerStep, Q.ProducerStep, Lanes, LanesFit;
  }

  lemma LaneReceivesNothing<P>(lane: Lane<P>, cap: nat, maxSeg: Word, p: nat, item: Item<P>, ok: bool)
    requires Q.Wellformed(lane) && p < |lane.producers|
    ensures Q.ProducerStep(lane, cap, maxSeg, p, item, ok).received == lane.received
  {
  }

  /** A value is taken exactly by an access of the head segment's ring that finds its front claimed and published. */
  lemma TakesExactlyWhatIsPublished<P>(s: State<P>, u: bool)
    requires Lanes(s) && (if u then s.consumer.PopUrgent? else s.consumer.PopNormal?)
    ensures var lane := LaneOf(s, u);
      && lane.head < |lane.chain|
      && (DequeueStep(s, u).consumer.SubSize? <==>
           && lane.consumer.RingTake? && lane.chain[lane.head].taken < |lane.chain[lane.head].claimed|
           && forall p :: 0 <= p < |s.producers| ==> !Withholds(s.producers[p], u, lane.head, lane.chain[lane.head].taken))
  {
    hide Q.Entries, Q.InSendOrder, Q.Receipts, Q.RefusedPast, Q.Sends, Agrees;
  }

  /** What the run loop had in its hands and what arrives is what it has handled and still has. */
  lemma StepHands<P>(s: State<P>, cfg: Config, m: Move<P>, u: bool)
    requires Lanes(s) && Routed(s.urgent, true) && Routed(s.normal, false)
    ensures var t := Step(s, cfg, m);
      && LaneOf(s, u).received <= LaneOf(t, u).received
      && OfLane(InHand(s), u) + Arrived(LaneOf(s, u), LaneOf(t, u)) == OfLane(HandledBy(s, m), u) + OfLane(InHand(t), u)
  {
    if m.Consume? && (s.consumer.PopUrgent? || s.consumer.PopNormal?) {
      PopHands(s, cfg, m, s.consumer.PopUrgent?, u);
    } else if m.Consume? {
      RestHands(s, cfg, m, u);
    } else {
      PushReceivesNothing(s, cfg, m, u);
      hide Step;
    }
  }

  lemma PopHands<P>(s: State<P>, cfg: Config, m: Move<P>, w: bool, u: bool)
    requires Lanes(s) && Routed(s.urgent, true) && Routed(s.normal, false)
    requires m.Consume? && (if w then s.consumer.PopUrgent? else s.consumer.PopNormal?)
    ensures var t := Step(s, cfg, m);
      && LaneOf(s, u).received <= LaneOf(t, u).received
      && OfLane(InHand(s), u) + Arrived(LaneOf(s, u), LaneOf(t, u)) == OfLane(HandledBy(s, m), u) + OfLane(InHand(t), u)
  {
    var t := DequeueStep(s, w);
    assert t == Step(s, cfg, m);
    StepKeepsRouted(s, cfg, m, true);
    StepKeepsRouted(s, cfg, m, false);
    DequeueHands(s, w);
    LanesAre(t, w);
    hide Step, DequeueStep, Lanes, LanesFit, Routed, Q.Inv, OfLane;
    var lane, lane' := LaneOf(s, w), LaneOf(t, w);
    assert OfLane(InHand(s), u) == [] == OfLane(HandledBy(s, m), u) by { NoneOfLane<P>(u); }
    if t.consumer.SubSize? {
      ReceivedBelongs(lane', w, |lane.received|);
      OneOfLane(t.consumer.env, u);
      OneArrived(lane, lane');
    }
  }

  lemma LanesAre<P>(s: State<P>, u: bool)
    requires Lanes(s)
    ensures Q.Inv(LaneOf(s, u))
  {
  }

  lemma RestHands<P>(s: State<P>, cfg: Config, m: Move<P>, u: bool)
    requires Lanes(s) && m.Consume? && !s.consumer.PopUrgent? && !s.consumer.PopNormal?
    ensures var t := Step(s, cfg, m);
      && LaneOf(s, u).received == LaneOf(t, u).received
      && OfLane(InHand(s), u) == OfLane(HandledBy(s, m), u) + OfLane(InHand(t), u)
  {
    hide OfLane;
    NoneOfLane<P>(u);
  }

  lemma NoneOfLane<P>(u: bool)
    ensures OfLane<P>([], u) == []
  {
  }

  ghost predicate OneForOne<P>(s: State<P>, handled: seq<Envelope<P>>, u: bool) {
    OfLane(handled + InHand(s), u) == Envelopes(LaneOf(s, u).received)
  }

  lemma StepKeepsOneForOne<P>(s: State<P>, cfg: Config, m: Move<P>, handled: seq<Envelope<P>>, u: bool)
    requires Lanes(s) && Routed(s.urgent, true) && Routed(s.normal, false) && OneForOne(s, handled, u)
    ensures OneForOne(Step(s, cfg, m), handled + HandledBy(s, m), u)
  {
    hide Lanes, LanesFit, Routed, Step, OfLane, HandledBy, InHand, Envelopes, Arrived;
    var t := Step(s, cfg, m);
    StepHands(s, cfg, m, u);
    ArrivedAdds(LaneOf(s, u), LaneOf(t, u));
    OfLaneAdds(handled, InHand(s), u);
    OfLaneAdds(handled + HandledBy(s, m), InHand(t), u);
    OfLaneAdds(handled, HandledBy(s, m), u);
    var h := OfLane(handled, u);
    assert (h + OfLane(InHand(s), u)) + Arrived(LaneOf(s, u), LaneOf(t, u)) == h + (OfLane(InHand(s), u) + Arrived(LaneOf(s, u), LaneOf(t, u)));
    assert h + (OfLane(HandledBy(s, m), u) + OfLane(InHand(t), u)) == (h + OfLane(HandledBy(s, m), u)) + OfLane(InHand(t), u);
  }

  lemma {:induction false} RunKeepsRouted<P>(n: nat, cfg: Config, schedule: seq<Move<P>>)
    ensures var s := Run(Started<P>(n), cfg, schedule); Routed(s.urgent, true) && Routed(s.normal, false)
    decreases |schedule|
  {
    if schedule != [] {
      var last := |schedule| - 1;
      RunKeepsRouted(n, cfg, schedule[..last]);
      StepKeepsRouted(Run(Started<P>(n), cfg, schedule[..last]), cfg, schedule[last], true);
      StepKeepsRouted(Run(Started<P>(n), cfg, schedule[..last]), cfg, schedule[last], false);
      hide Step, Routed, Lanes;
    }
  }

  /**
    In every run what has been handled out of a lane, and the one envelope the run loop may
    have in its hands, are exactly the envelopes taken from that lane: one for one, in order,
    and each from the lane its own priority names.
   */
  lemma {:induction false} HandledIsWhatWasTaken<P>(n: nat, cfg: Config, schedule: seq<Move<P>>, u: bool)
    ensures var s := Run(Started<P>(n), cfg, schedule);
      OfLane(Handled(Started<P>(n), cfg, schedule) + InHand(s), u) == Envelopes(LaneOf(s, u).received)
    decreases |schedule|
  {
    if schedule == [] {
    } else {
      var last := |schedule| - 1;
      HandledIsWhatWasTaken(n, cfg, schedule[..last], u);
      RunKeepsRouted(n, cfg, schedule[..last]);
      StepKeepsOneForOne(Run(Started<P>(n), cfg, schedule[..last]), cfg, schedule[last], Handled(Started<P>(n), cfg, schedule[..last]), u);
      hide Step, Routed, Lanes, HandledBy, InHand, OfLane, Envelopes;
    }
  }
}
