/**
  The envelopes handled, against the calls of Push: each sender's are handled in the order it
  pushed them and no push is handled twice, however often Block has retried it. A normal
  envelope is taken only by a Pop that has found nothing urgent. For every schedule.
 */
module MailboxPushes {
  import opened Words
  import Q = SegmentedSteps
  import C = SegmentCalls
  import opened MailboxSteps
  import opened MailboxOrder

  // ---------------------------------------------------------------- the pushes of one producer

  /** What producer p has passed to Push, call by call. */
  ghost function Pushed<P>(s: State<P>, cfg: Config, schedule: seq<Move<P>>, p: nat): seq<Envelope<P>>
    requires Lanes(s)
    decreases |schedule|
  {
    if schedule == [] then []
    else
      var last := |schedule| - 1;
      Pushed(s, cfg, schedule[..last], p) + PushedBy(Run(s, cfg, schedule[..last]), schedule[last], p)
  }

  function PushedBy<P>(s: State<P>, m: Move<P>, p: nat): seq<Envelope<P>> {
    if m.Produce? && m.p == p < |s.producers| && s.producers[p].Idle? then [m.env] else []
  }

  /** Which push each of p's calls of Enqueue on lane u belongs to. */
  ghost function Tries<P>(s: State<P>, cfg: Config, schedule: seq<Move<P>>, p: nat, u: bool): seq<int>
    requires Lanes(s)
    decreases |schedule|
  {
    if schedule == [] then []
    else
      var last := |schedule| - 1;
      Tries(s, cfg, schedule[..last], p, u) + TriedBy(Run(s, cfg, schedule[..last]), schedule[last], p, u, |Pushed(s, cfg, schedule[..last], p)| - 1)
  }

  function TriedBy<P>(s: State<P>, m: Move<P>, p: nat, u: bool, push: int): seq<int> {
    if Enters(s, m, p, u) then [push] else []
  }

  /** Producer p takes an access of lane u's Enqueue. */
  predicate Enqueues<P>(s: State<P>, m: Move<P>, p: nat, u: bool) {
    m.Produce? && m.p == p < |s.producers| && s.producers[p].Enqueue? && s.producers[p].item.env.urgent == u
  }

  /** The first access of such a call. */
  predicate Enters<P>(s: State<P>, m: Move<P>, p: nat, u: bool) {
    Enqueues(s, m, p, u) && p < |LaneOf(s, u).producers| && LaneOf(s, u).producers[p].Idle?
  }

  // ---------------------------------------------------------------- the invariant

  /** In Push, with no place in a lane yet. */
  predicate Trying<P>(pc: Producer<P>) {
    pc.CheckClosed? || pc.WriteAhead? || pc.Enqueue? || pc.RecheckClosed?
  }

  function EnvOf<P>(pc: Producer<P>): Envelope<P>
    requires Trying(pc)
  {
    if pc.CheckClosed? || pc.WriteAhead? then pc.env else pc.item.env
  }

  /** Each try is an Enqueue of its push's envelope, and only the last try of a push may not have been refused. */
  ghost predicate TriesFit<P>(lane: Lane<P>, p: nat, envs: seq<Envelope<P>>, tries: seq<int>) {
    && p < |lane.sent| && p < |lane.refused| && |tries| == |lane.sent[p]|
    && (forall k :: 0 <= k < |tries| ==> 0 <= tries[k] < |envs| && lane.sent[p][k].env == envs[tries[k]])
    && (forall k: nat, l: nat {:trigger tries[k], tries[l]} :: k < l < |tries| ==> k in lane.refused[p] || tries[k] < tries[l])
  }

  /** While a push is being tried all its earlier tries have been refused. */
  ghost predicate StillToPlace<P>(lane: Lane<P>, p: nat, envs: seq<Envelope<P>>, tries: seq<int>) {
    p < |lane.producers| && p < |lane.refused| &&
    forall k: nat :: k < |tries| && tries[k] == |envs| - 1 ==> k in lane.refused[p] || (!lane.producers[p].Idle? && k == |tries| - 1)
  }

  ghost predicate InOrder<P>(s: State<P>, p: nat, u: bool, envs: seq<Envelope<P>>, tries: seq<int>) {
    && p < |s.producers|
    && TriesFit(LaneOf(s, u), p, envs, tries)
    && (Trying(s.producers[p]) ==> envs != [] && EnvOf(s.producers[p]) == envs[|envs| - 1] && StillToPlace(LaneOf(s, u), p, envs, tries))
  }

  // ---------------------------------------------------------------- every step keeps it

  /** Another producer's access, or the consumer's, leaves p's calls on the lane alone. */
  lemma OthersLeaveCalls<P>(s: State<P>, cfg: Config, m: Move<P>, p: nat, u: bool)
    requires Lanes(s) && p < |s.producers| && !Enqueues(s, m, p, u)
    ensures var lane, t := LaneOf(s, u), LaneOf(Step(s, cfg, m), u);
      && p < |lane.sent| == |t.sent| && p < |lane.refused| == |t.refused| && p < |lane.producers| == |t.producers|
      && t.sent[p] == lane.sent[p] && t.refused[p] == lane.refused[p] && t.producers[p] == lane.producers[p]
  {
    LaneMoves(s, cfg, m, u);
    LanesAre(s, u);
    var lane := LaneOf(s, u);
    LaneLengths(s, u);
    if m.Produce? && m.p < |s.producers| && s.producers[m.p].Enqueue? && s.producers[m.p].item.env.urgent == u {
      OthersLeaveLane(lane, Cap(cfg, u), cfg.maxSeg, Q.Produce(m.p, s.producers[m.p].item, m.ok), p);
    } else if m.Consume? && (if u then s.consumer.PopUrgent? else s.consumer.PopNormal?) {
      OthersLeaveLane(lane, Cap(cfg, u), cfg.maxSeg, Q.Consume(FrontReady(s, u)), p);
    }
    hide Step, Lanes, LanesFit, Q.Inv, Q.ProducerStep, Q.ConsumerStep, FrontReady;
  }

  lemma LaneLengths<P>(s: State<P>, u: bool)
    requires Lanes(s)
    ensures var lane := LaneOf(s, u); |lane.sent| == |lane.refused| == |lane.producers| == |s.producers|
  {
  }

  lemma OthersLeaveLane<P>(lane: Lane<P>, cap: nat, maxSeg: Word, m: Q.Move<Item<P>>, p: nat)
    requires Q.Inv(lane) && p < |lane.producers| && !(m.Produce? && m.p == p)
    ensures var t := Q.Step(lane, cap, maxSeg, m);
      && p < |lane.sent| == |t.sent| && p < |lane.refused| == |t.refused| && p < |lane.producers| == |t.producers|
      && t.sent[p] == lane.sent[p] && t.refused[p] == lane.refused[p] && t.producers[p] == lane.producers[p]
  {
    hide Q.Entries, Q.InSendOrder, Q.Receipts, Q.RefusedPast, Q.Sends;
  }

  /** p's own access of the lane's Enqueue: what becomes of its tries. */
  lemma OwnTries<P>(lane: Lane<P>, cap: nat, maxSeg: Word, p: nat, item: Item<P>, ok: bool, envs: seq<Envelope<P>>, tries: seq<int>)
    requires Q.Inv(lane) && p < |lane.producers|
    requires TriesFit(lane, p, envs, tries) && StillToPlace(lane, p, envs, tries) && envs != [] && item.env == envs[|envs| - 1]
    ensures var t := Q.ProducerStep(lane, cap, maxSeg, p, item, ok);
      var more := tries + if lane.producers[p].Idle? then [|envs| - 1] else [];
      && TriesFit(t, p, envs, more)
      && p < |t.producers| && (!t.producers[p].Idle? || !lane.producers[p].RingPut? ==> StillToPlace(t, p, envs, more))
  {
    var m := Q.Produce(p, item, ok);
    SentGrows(lane, cap, maxSeg, p, item, ok);
    C.RefusedExactly(lane, cap, maxSeg, m, p);
    if lane.producers[p].Idle? { C.CallBegins(lane, cap, maxSeg, m, p); } else { C.CallEndsExactly(lane, cap, maxSeg, m, p); }
    hide Q.Inv, Q.ProducerStep, Q.Wellformed;
    if lane.producers[p].Idle? {
      assert |lane.sent[p] + [item]| == |tries + [|envs| - 1]|;
    } else {
      assert tries + [] == tries;
    }
  }

  lemma EnterIsPlain<P>(s: State<P>, cfg: Config, p: nat, ok: bool)
    requires LanesFit(s) && p < |s.producers| && s.producers[p].Enqueue?
    ensures var item := s.producers[p].item; var u := item.env.urgent; var lane := LaneOf(s, u);
      var lane' := Q.ProducerStep(lane, Cap(cfg, u), cfg.maxSeg, p, item, ok); var t := EnqueueStep(s, cfg, p, ok);
      && |t.producers| == |s.producers|
      && (Trying(t.producers[p]) ==> EnvOf(t.producers[p]) == item.env)
      && (Trying(t.producers[p]) ==> p < |lane'.producers| && (!lane'.producers[p].Idle? || !lane.producers[p].RingPut?))
  {
    var item := s.producers[p].item;
    Q.StepKeepsProducers(LaneOf(s, item.env.urgent), Cap(cfg, item.env.urgent), cfg.maxSeg, Q.Produce(p, item, ok));
    hide Q.Wellformed, Q.ProducerStep;
  }

  lemma EnqueueKeepsOrder<P>(s: State<P>, cfg: Config, m: Move<P>, p: nat, u: bool, envs: seq<Envelope<P>>, tries: seq<int>)
    requires Lanes(s) && InOrder(s, p, u, envs, tries) && Enqueues(s, m, p, u)
    ensures InOrder(Step(s, cfg, m), p, u, envs, tries + TriedBy(s, m, p, u, |envs| - 1))
  {
    LaneLengths(s, u);
    LanesAre(s, u);
    LaneMoves(s, cfg, m, u);
    EnqueueIsTheStep(s, cfg, p, m.env, m.ok);
    EnterIsPlain(s, cfg, p, m.ok);
    OwnTries(LaneOf(s, u), Cap(cfg, u), cfg.maxSeg, p, s.producers[p].item, m.ok, envs, tries);
    hide Lanes, LanesFit, EnqueueStep, Q.ProducerStep, Q.Inv, TriesFit, StillToPlace;
  }

  /** Steps of p in Push outside this lane's Enqueue. */
  lemma PushKeepsOrder<P>(s: State<P>, cfg: Config, m: Move<P>, p: nat, u: bool, envs: seq<Envelope<P>>, tries: seq<int>)
    requires Lanes(s) && InOrder(s, p, u, envs, tries) && !Enqueues(s, m, p, u)
    ensures InOrder(Step(s, cfg, m), p, u, envs + PushedBy(s, m, p), tries)
  {
    var t := Step(s, cfg, m);
    OthersLeaveCalls(s, cfg, m, p, u);
    PushMovesOn(s, cfg, m, p);
    hide Lanes, LanesFit, Step;
    SameTries(LaneOf(s, u), LaneOf(t, u), p, envs, tries, PushedBy(s, m, p));
  }

  lemma SameTries<P>(lane: Lane<P>, t: Lane<P>, p: nat, envs: seq<Envelope<P>>, tries: seq<int>, more: seq<Envelope<P>>)
    requires TriesFit(lane, p, envs, tries) && |more| <= 1
    requires p < |t.sent| && p < |t.refused| && p < |t.producers| && p < |lane.producers|
    requires t.sent[p] == lane.sent[p] && t.refused[p] == lane.refused[p] && t.producers[p] == lane.producers[p]
    ensures TriesFit(t, p, envs + more, tries)
    ensures more != [] || StillToPlace(lane, p, envs, tries) ==> StillToPlace(t, p, envs + more, tries)
  {
    if more == [] { assert envs + more == envs; }
  }

  /** A push goes on with its envelope, and begins with the one it is given. */
  lemma PushMovesOn<P>(s: State<P>, cfg: Config, m: Move<P>, p: nat)
    requires LanesFit(s) && p < |s.producers|
    ensures var pc, t := s.producers[p], Step(s, cfg, m);
      && |t.producers| == |s.producers|
      && (Trying(t.producers[p]) && PushedBy(s, m, p) == [] ==> Trying(pc) && EnvOf(t.producers[p]) == EnvOf(pc))
      && (PushedBy(s, m, p) != [] ==> Trying(t.producers[p]) && EnvOf(t.producers[p]) == PushedBy(s, m, p)[0])
  {
    hide Q.Wellformed, Q.ProducerStep, Q.ConsumerStep, FrontReady;
    if m.Produce? && m.p < |s.producers| && s.producers[m.p].Enqueue? {
      EnterIsPlain(s, cfg, m.p, m.ok);
      OthersStay(s, cfg, m.p, m.ok, p);
    }
  }

  lemma OthersStay<P>(s: State<P>, cfg: Config, p: nat, ok: bool, q: nat)
    requires LanesFit(s) && p < |s.producers| && s.producers[p].Enqueue? && q < |s.producers|
    ensures var t := EnqueueStep(s, cfg, p, ok); |t.producers| == |s.producers| && (q != p ==> t.producers[q] == s.producers[q])
  {
    hide Q.Wellformed, Q.ProducerStep;
  }

  lemma StepKeepsOrder<P>(s: State<P>, cfg: Config, m: Move<P>, p: nat, u: bool, envs: seq<Envelope<P>>, tries: seq<int>)
    requires Lanes(s) && InOrder(s, p, u, envs, tries)
    ensures InOrder(Step(s, cfg, m), p, u, envs + PushedBy(s, m, p), tries + TriedBy(s, m, p, u, |envs| - 1))
  {
    hide Step, InOrder, Lanes;
    if Enqueues(s, m, p, u) {
      EnqueueKeepsOrder(s, cfg, m, p, u, envs, tries);
      assert envs + [] == envs;
    } else {
      PushKeepsOrder(s, cfg, m, p, u, envs, tries);
      assert tries + [] == tries;
    }
  }

  lemma {:induction false} RunKeepsOrder<P>(n: nat, cfg: Config, schedule: seq<Move<P>>, p: nat, u: bool)
    requires p < n
    ensures InOrder(Run(Started<P>(n), cfg, schedule), p, u, Pushed(Started<P>(n), cfg, schedule, p), Tries(Started<P>(n), cfg, schedule, p, u))
    decreases |schedule|
  {
    if schedule == [] {
    } else {
      var last := |schedule| - 1;
      RunKeepsOrder(n, cfg, schedule[..last], p, u);
      StepKeepsOrder(Run(Started<P>(n), cfg, schedule[..last]), cfg, schedule[last], p, u,
                     Pushed(Started<P>(n), cfg, schedule[..last], p), Tries(Started<P>(n), cfg, schedule[..last], p, u));
      hide Step, InOrder, Lanes, PushedBy, TriedBy;
    }
  }

  // ---------------------------------------------------------------- what is handled, push by push

  /** Of the envelopes with these receipts, those of producer p. */
  function FromSender<P>(es: seq<Envelope<P>>, received: seq<Q.Receipt<Item<P>>>, p: nat): seq<Envelope<P>>
    requires |es| == |received|
  {
    if es == [] then []
    else
      var last := |es| - 1;
      FromSender(es[..last], received[..last], p) + if received[last].m.from == p then [es[last]] else []
  }

  /** The receipt of a place is of an accepted call. */
  lemma ReceiptIsAccepted<P>(lane: Lane<P>, x: nat)
    requires Q.Inv(lane) && x < |lane.received|
    ensures var m := lane.received[x].m;
      && m.from < |lane.sent| == |lane.refused| && m.k < |lane.sent[m.from]|
      && m.v == lane.sent[m.from][m.k] && m.k !in lane.refused[m.from]
  {
    var r := lane.received[x];
    assert Q.ReceiptOk(lane, r);
    assert Q.EntryOk(lane, lane.chain[r.seg].claimed[r.idx], r.seg);
  }

  lemma ReceiptsAreOrdered<P>(lane: Lane<P>, x: nat, y: nat)
    requires Q.Inv(lane) && x < y < |lane.received| && lane.received[x].m.from == lane.received[y].m.from
    ensures lane.received[x].m.k < lane.received[y].m.k
  {
    assert Q.ReceiptOk(lane, lane.received[x]) && Q.ReceiptOk(lane, lane.received[y]);
  }

  /** The push that the x-th receipt of p comes from. */
  ghost function PushOf<P>(lane: Lane<P>, tries: seq<int>, x: nat): int
    requires x < |lane.received| && lane.received[x].m.k < |tries|
  {
    tries[lane.received[x].m.k]
  }

  lemma PushesIncrease<P>(lane: Lane<P>, p: nat, envs: seq<Envelope<P>>, tries: seq<int>, x: nat, y: nat)
    requires Q.Inv(lane) && TriesFit(lane, p, envs, tries)
    requires x < y < |lane.received| && lane.received[x].m.from == p == lane.received[y].m.from
    ensures lane.received[x].m.k < |tries| && lane.received[y].m.k < |tries|
    ensures PushOf(lane, tries, x) < PushOf(lane, tries, y)
  {
    ReceiptIsAccepted(lane, x);
    ReceiptIsAccepted(lane, y);
    ReceiptsAreOrdered(lane, x, y);
    hide Q.Inv;
  }

  /** The first n receipts, if all of p's among them come from pushes before `end`. */
  lemma {:induction false} InPushOrderUpTo<P>(lane: Lane<P>, p: nat, envs: seq<Envelope<P>>, tries: seq<int>, n: nat, end: nat)
    requires Q.Inv(lane) && TriesFit(lane, p, envs, tries) && n <= |lane.received| && end <= |envs|
    requires forall x :: 0 <= x < n && lane.received[x].m.from == p ==> lane.received[x].m.k < |tries| && PushOf(lane, tries, x) < end
    ensures Q.Picks(FromSender(Envelopes(lane.received)[..n], lane.received[..n], p), envs, end)
  {
    hide Q.Inv, TriesFit;
    if n > 0 {
      var es, r := Envelopes(lane.received), lane.received[n - 1];
      assert es[..n][..n - 1] == es[..n - 1] && lane.received[..n][..n - 1] == lane.received[..n - 1];
      if r.m.from == p {
        forall x | 0 <= x < n - 1 && lane.received[x].m.from == p
          ensures lane.received[x].m.k < |tries| && PushOf(lane, tries, x) < PushOf(lane, tries, n - 1)
        {
          PushesIncrease(lane, p, envs, tries, x, n - 1);
        }
        PushHasEnvelope(lane, p, envs, tries, n - 1);
        InPushOrderUpTo(lane, p, envs, tries, n - 1, PushOf(lane, tries, n - 1));
        var sub := FromSender(es[..n], lane.received[..n], p);
        assert sub[..|sub| - 1] == FromSender(es[..n - 1], lane.received[..n - 1], p);
      } else {
        InPushOrderUpTo(lane, p, envs, tries, n - 1, end);
        assert FromSender(es[..n], lane.received[..n], p) == FromSender(es[..n - 1], lane.received[..n - 1], p);
      }
    }
  }

  lemma PushHasEnvelope<P>(lane: Lane<P>, p: nat, envs: seq<Envelope<P>>, tries: seq<int>, x: nat)
    requires Q.Inv(lane) && TriesFit(lane, p, envs, tries) && x < |lane.received| && lane.received[x].m.from == p
    ensures lane.received[x].m.k < |tries| && 0 <= PushOf(lane, tries, x) < |envs|
    ensures lane.received[x].m.v.env == envs[PushOf(lane, tries, x)]
  {
    ReceiptIsAccepted(lane, x);
    hide Q.Inv;
  }

  /**
    In every run, what is handled out of a lane from one producer, with what the run loop has
    in its hands, is a subsequence of that producer's pushes: in their order, and no push
    twice, even if Block had to try it many times.
   */
  lemma HandledInPushOrder<P>(n: nat, cfg: Config, schedule: seq<Move<P>>, u: bool, p: nat)
    requires p < n
    ensures var s := Run(Started<P>(n), cfg, schedule);
      var out := OfLane(Handled(Started<P>(n), cfg, schedule) + InHand(s), u); var received := LaneOf(s, u).received;
      var envs := Pushed(Started<P>(n), cfg, schedule, p);
      |out| == |received| && Q.Picks(FromSender(out, received, p), envs, |envs|)
  {
    var s := Run(Started<P>(n), cfg, schedule);
    var lane, envs, tries := LaneOf(s, u), Pushed(Started<P>(n), cfg, schedule, p), Tries(Started<P>(n), cfg, schedule, p, u);
    HandledIsWhatWasTaken(n, cfg, schedule, u);
    RunKeepsOrder(n, cfg, schedule, p, u);
    LanesAre(s, u);
    hide Run, Pushed, Tries, Lanes, Q.Inv, OfLane, Handled, InHand;
    forall x | 0 <= x < |lane.received| && lane.received[x].m.from == p
      ensures lane.received[x].m.k < |tries| && PushOf(lane, tries, x) < |envs|
    {
      PushHasEnvelope(lane, p, envs, tries, x);
    }
    InPushOrderUpTo(lane, p, envs, tries, |lane.received|, |envs|);
    var es := Envelopes(lane.received);
    assert es[..|lane.received|] == es && lane.received[..|lane.received|] == lane.received;
  }

  // ---------------------------------------------------------------- urgent first

  /** The urgent lane's Dequeue is about to return nil: the segment it looked in has no successor. */
  ghost predicate FindsNothingUrgent<P>(s: State<P>) {
    s.consumer.PopUrgent? && s.urgent.consumer.LoadHeadNext? && s.urgent.head == |s.urgent.chain| - 1
  }

  /** This Pop found nothing urgent at step i, and has been in the normal lane's Dequeue since. */
  ghost predicate UrgentWasEmptyAt<P>(n: nat, cfg: Config, schedule: seq<Move<P>>, i: nat)
    requires i < |schedule|
  {
    && schedule[i].Consume? && FindsNothingUrgent(Run(Started<P>(n), cfg, schedule[..i]))
    && forall j :: i < j <= |schedule| ==> Run(Started<P>(n), cfg, schedule[..j]).consumer.PopNormal?
  }

  lemma NormalComesAfterUrgent<P>(s: State<P>, cfg: Config, m: Move<P>)
    requires Lanes(s) && !s.consumer.PopNormal? && Step(s, cfg, m).consumer.PopNormal?
    ensures m.Consume? && FindsNothingUrgent(s)
  {
    if m.Consume? {
      if s.consumer.PopUrgent? { LanesAre(s, true); UrgentEnds(s); }
    } else {
      PushReceivesNothing(s, cfg, m, true);
      hide Step;
    }
  }

  lemma UrgentEnds<P>(s: State<P>)
    requires LanesFit(s) && Q.Inv(s.urgent) && s.consumer.PopUrgent? && DequeueStep(s, true).consumer.PopNormal?
    ensures FindsNothingUrgent(s)
  {
    hide Q.Entries, Q.InSendOrder, Q.Receipts, Q.RefusedPast, Q.Sends, FrontReady;
  }

  lemma StillSinceThen<P>(n: nat, cfg: Config, schedule: seq<Move<P>>, i: nat)
    requires schedule != [] && i < |schedule| - 1 && UrgentWasEmptyAt(n, cfg, schedule[..|schedule| - 1], i)
    requires Run(Started<P>(n), cfg, schedule).consumer.PopNormal?
    ensures UrgentWasEmptyAt(n, cfg, schedule, i)
  {
    hide Step, Lanes, FindsNothingUrgent, Run;
    assert forall j :: 0 <= j < |schedule| ==> schedule[..|schedule| - 1][..j] == schedule[..j];
    assert schedule[..|schedule|] == schedule;
  }

  lemma {:induction false} NormalPopFollowsUrgent<P>(n: nat, cfg: Config, schedule: seq<Move<P>>)
    requires Run(Started<P>(n), cfg, schedule).consumer.PopNormal?
    ensures exists i :: 0 <= i < |schedule| && UrgentWasEmptyAt(n, cfg, schedule, i)
    decreases |schedule|
  {
    hide Step, Lanes, FindsNothingUrgent;
    if schedule == [] {
    } else {
      var last := |schedule| - 1;
      var before := Run(Started<P>(n), cfg, schedule[..last]);
      if before.consumer.PopNormal? {
        NormalPopFollowsUrgent(n, cfg, schedule[..last]);
        var i :| 0 <= i < last && UrgentWasEmptyAt(n, cfg, schedule[..last], i);
        StillSinceThen(n, cfg, schedule, i);
      } else {
        NormalComesAfterUrgent(before, cfg, schedule[last]);
        assert schedule[..|schedule|] == schedule;
        assert UrgentWasEmptyAt(n, cfg, schedule, last);
      }
    }
  }

  /** A step that hands the run loop an envelope from the normal lane. */
  ghost predicate HandsOutNormal<P>(s: State<P>, cfg: Config, m: Move<P>)
    requires Lanes(s)
  {
    InHand(s) == [] && InHand(Step(s, cfg, m)) != [] && !InHand(Step(s, cfg, m))[0].urgent
  }

  /**
    In every run a normal envelope is handed out only by a Pop that has, earlier in the same
    call, had nil from the urgent lane.
   */
  lemma UrgentComesFirst<P>(n: nat, cfg: Config, schedule: seq<Move<P>>, m: Move<P>)
    requires HandsOutNormal(Run(Started<P>(n), cfg, schedule), cfg, m)
    ensures exists i :: 0 <= i < |schedule| && UrgentWasEmptyAt(n, cfg, schedule, i)
  {
    var s := Run(Started<P>(n), cfg, schedule);
    RunKeepsRouted(n, cfg, schedule);
    NormalIsFromNormal(s, cfg, m);
    NormalPopFollowsUrgent(n, cfg, schedule);
  }

  lemma NormalIsFromNormal<P>(s: State<P>, cfg: Config, m: Move<P>)
    requires Lanes(s) && Routed(s.urgent, true) && Routed(s.normal, false) && HandsOutNormal(s, cfg, m)
    ensures s.consumer.PopNormal?
  {
    if !m.Consume? {
      PushReceivesNothing(s, cfg, m, true);
      hide Step;
    } else if s.consumer.PopUrgent? {
      StepKeepsRouted(s, cfg, m, true);
      DequeueHands(s, true);
      LanesAre(Step(s, cfg, m), true);
      var t := DequeueStep(s, true);
      if t.consumer.SubSize? { ReceivedBelongs(t.urgent, true, |s.urgent.received|); }
    }
  }
}
