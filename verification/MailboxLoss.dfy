/**
  A mailbox whose run loop is stuck in Wait with nobody pushing is empty, in every run,
  exactly when its lanes have a budget of one segment. For more, a run that ends otherwise.
 */
module MailboxLoss {
  import opened Words
  import Q = SegmentedSteps
  import R = SegmentedRuns
  import L = SegmentedLoss
  import opened MailboxSteps
  import Mailboxes

  /** Rings answer exactly and nothing fails. */
  predicate Exact<P>(schedule: seq<Move<P>>) {
    forall i :: 0 <= i < |schedule| && schedule[i].Produce? ==> schedule[i].ok
  }

  ghost predicate Leads<P(!new)>(n: nat, cfg: Config, t: State<P>) {
    exists schedule: seq<Move<P>> :: Exact(schedule) && Run(Started<P>(n), cfg, schedule) == t
  }

  lemma Begins<P(!new)>(n: nat, cfg: Config)
    ensures Leads(n, cfg, Init<P>(n)) && Lanes(Init<P>(n))
  {
    hide Lanes;
    var none: seq<Move<P>> := [];
    assert Run(Started<P>(n), cfg, none) == Started<P>(n);
  }

  lemma LeadsOn<P(!new)>(n: nat, cfg: Config, t: State<P>, m: Move<P>)
    requires Leads(n, cfg, t) && (m.Produce? ==> m.ok)
    ensures Lanes(t) && Lanes(Step(t, cfg, m)) && Leads(n, cfg, Step(t, cfg, m))
  {
    hide Lanes, Step;
    var schedule: seq<Move<P>> :| Exact(schedule) && Run(Started<P>(n), cfg, schedule) == t;
    var more := schedule + [m];
    assert more[..|more| - 1] == schedule;
    assert Run(Started<P>(n), cfg, more) == Step(t, cfg, m);
  }

  /** Producer 0's next access. */
  lemma Produced<P(!new)>(n: nat, cfg: Config, s: State<P>, e: Envelope<P>) returns (t: State<P>)
    requires Leads(n, cfg, s) && |s.producers| >= 1
    ensures Lanes(s) && Lanes(t) && Leads(n, cfg, t) && t == ProducerStep(s, cfg, 0, e, true)
  {
    hide Lanes, ProducerStep;
    LeadsOn(n, cfg, s, Produce(0, e, true));
    t := Step(s, cfg, Produce(0, e, true));
  }

  /** The run loop's next access. */
  lemma Consumed<P(!new)>(n: nat, cfg: Config, s: State<P>) returns (t: State<P>)
    requires Leads(n, cfg, s)
    ensures Lanes(s) && Lanes(t) && Leads(n, cfg, t) && t == ConsumerStep(s, false)
  {
    hide Lanes, ConsumerStep;
    LeadsOn(n, cfg, s, Consume(false));
    t := Step(s, cfg, Consume(false));
  }

  /** An envelope for the normal lane, not persisted. */
  predicate Plain<P>(e: Envelope<P>) {
    !e.urgent && !e.persist
  }

  /** Producer 0's next access inside the normal lane's Enqueue. */
  lemma Accessed<P(!new)>(n: nat, cfg: Config, s: State<P>, e: Envelope<P>) returns (t: State<P>)
    requires Leads(n, cfg, s) && |s.producers| >= 1 && Plain(e) && s.producers[0] == Enqueue(Item(e, false))
    ensures Lanes(s) && Lanes(t) && Leads(n, cfg, t)
    ensures var lane := Q.ProducerStep(s.normal, cfg.normalCap, cfg.maxSeg, 0, Item(e, false), true);
      && |lane.producers| >= 1
      && (!lane.producers[0].Idle? ==> t == s.(normal := lane))
      && (lane.producers[0].Idle? && s.normal.producers[0].RingPut? ==>
          var q := s.normal.producers[0].t;
          q < |s.normal.chain| && t == s.(normal := lane, producers := s.producers[0 := Publish(Item(e, false), q, |s.normal.chain[q].claimed|)]))
  {
    t := Produced(n, cfg, s, e);
    LaneAccess(s.normal, cfg.normalCap, cfg.maxSeg, 0, Item(e, false), true) by { assert Agrees(s, 0); }
    hide Q.ProducerStep, Lanes;
    assert s.producers[0 := s.producers[0]] == s.producers;
  }

  /** Up to the call of Enqueue. */
  lemma BeginPush<P(!new)>(n: nat, cfg: Config, s: State<P>, e: Envelope<P>) returns (t: State<P>)
    requires Leads(n, cfg, s) && |s.producers| >= 1 && Plain(e) && s.producers[0].Idle? && !s.closed
    ensures Lanes(t) && Leads(n, cfg, t) && t == s.(producers := s.producers[0 := Enqueue(Item(e, false))])
  {
    hide Lanes, Leads;
    t := Produced(n, cfg, s, e);
    t := Produced(n, cfg, t, e);
    t := Produced(n, cfg, t, e);
  }

  /** After the claim: publish, count, notify. */
  lemma Announce<P(!new)>(n: nat, cfg: Config, s: State<P>, e: Envelope<P>) returns (t: State<P>)
    requires Leads(n, cfg, s) && |s.producers| >= 1 && s.producers[0].Publish?
    ensures Lanes(t) && Leads(n, cfg, t) && t == s.(producers := s.producers[0 := Idle], size := s.size + 1, notify := true)
  {
    hide Lanes, Leads;
    t := Produced(n, cfg, s, e);
    t := Produced(n, cfg, t, e);
    t := Produced(n, cfg, t, e);
  }

  /** Enqueue on a tail segment with room. */
  lemma Claim<P(!new)>(n: nat, cfg: Config, s: State<P>, e: Envelope<P>, live: nat) returns (t: State<P>)
    requires Leads(n, cfg, s) && Lanes(s) && |s.producers| >= 1 && Plain(e) && s.producers[0] == Enqueue(Item(e, false))
    requires s.normal.producers[0].Idle? || s.normal.producers[0] == Q.LoadTail(Item(e, false))
    requires R.Lined(s.normal, cfg.normalCap, live) && |s.normal.chain[live - 1].claimed| < cfg.normalCap
    ensures Lanes(t) && Leads(n, cfg, t) && |t.producers| == |s.producers| && t.producers[0].Publish?
    ensures t == s.(normal := t.normal, producers := s.producers[0 := t.producers[0]])
    ensures R.Lined(t.normal, cfg.normalCap, live) && t.normal.head == s.normal.head && t.normal.consumer == s.normal.consumer && t.normal.segs == s.normal.segs
    ensures |t.normal.chain[live - 1].claimed| == |s.normal.chain[live - 1].claimed| + 1
    ensures t.normal.producers == s.normal.producers[0 := Q.Idle]
  {
    hide Q.Entries, Q.InSendOrder, Q.Receipts, Q.RefusedPast, Q.Sends, Leads, Agrees;
    t := s;
    if s.normal.producers[0].Idle? { t := Accessed(n, cfg, s, e); }
    assert t.normal.producers[0] == Q.LoadTail(Item(e, false));
    t := ClaimFromTail(n, cfg, t, e, live);
  }

  lemma ClaimFromTail<P(!new)>(n: nat, cfg: Config, s: State<P>, e: Envelope<P>, live: nat) returns (t: State<P>)
    requires Leads(n, cfg, s) && Lanes(s) && |s.producers| >= 1 && Plain(e) && s.producers[0] == Enqueue(Item(e, false))
    requires s.normal.producers[0] == Q.LoadTail(Item(e, false))
    requires R.Lined(s.normal, cfg.normalCap, live) && |s.normal.chain[live - 1].claimed| < cfg.normalCap
    ensures Lanes(t) && Leads(n, cfg, t) && |t.producers| == |s.producers| && t.producers[0].Publish?
    ensures t == s.(normal := t.normal, producers := s.producers[0 := t.producers[0]])
    ensures R.Lined(t.normal, cfg.normalCap, live) && t.normal.head == s.normal.head && t.normal.consumer == s.normal.consumer && t.normal.segs == s.normal.segs
    ensures |t.normal.chain[live - 1].claimed| == |s.normal.chain[live - 1].claimed| + 1
    ensures t.normal.producers == s.normal.producers[0 := Q.Idle]
  {
    hide Q.Entries, Q.InSendOrder, Q.Receipts, Q.RefusedPast, Q.Sends, Leads, Agrees;
    var s1 := Accessed(n, cfg, s, e);
    assert s1.normal.producers[0] == Q.RingPut(Item(e, false), live - 1);
    t := Accessed(n, cfg, s1, e);
  }

  /** Enqueue on a full tail segment with room in the budget: a new segment, counted, and back to the top of the loop. */
  lemma LinkSegment<P(!new)>(n: nat, cfg: Config, s: State<P>, e: Envelope<P>, live: nat) returns (t: State<P>)
    requires Leads(n, cfg, s) && Lanes(s) && |s.producers| >= 1 && Plain(e) && s.producers[0] == Enqueue(Item(e, false)) && s.normal.producers[0].Idle?
    requires R.Lined(s.normal, cfg.normalCap, live) && |s.normal.chain[live - 1].claimed| == cfg.normalCap && s.normal.segs < cfg.maxSeg
    ensures Lanes(t) && Leads(n, cfg, t)
    ensures t == s.(normal := t.normal)
    ensures R.Lined(t.normal, cfg.normalCap, live + 1) && t.normal.head == s.normal.head && t.normal.consumer == s.normal.consumer
    ensures t.normal.chain[live] == Q.Segment([], 0) && t.normal.producers == s.normal.producers[0 := Q.LoadTail(Item(e, false))]
  {
    hide Q.Entries, Q.InSendOrder, Q.Receipts, Q.RefusedPast, Q.Sends, Leads, Agrees;
    var s1 := FindFull(n, cfg, s, e, live);
    var s2 := Accessed(n, cfg, s1, e);
    assert s2.normal.producers[0] == Q.LoadNext(Item(e, false), live - 1);
    var s3 := Accessed(n, cfg, s2, e);
    assert s3.normal.producers[0] == Q.CasNext(Item(e, false), live - 1);
    t := CountSegment(n, cfg, s3, e, live);
  }

  lemma CountSegment<P(!new)>(n: nat, cfg: Config, s: State<P>, e: Envelope<P>, live: nat) returns (t: State<P>)
    requires Leads(n, cfg, s) && Lanes(s) && |s.producers| >= 1 && Plain(e) && s.producers[0] == Enqueue(Item(e, false))
    requires R.Lined(s.normal, cfg.normalCap, live) && |s.normal.chain[live - 1].claimed| == cfg.normalCap
    requires s.normal.producers[0] == Q.CasNext(Item(e, false), live - 1)
    ensures Lanes(t) && Leads(n, cfg, t)
    ensures t == s.(normal := t.normal)
    ensures R.Lined(t.normal, cfg.normalCap, live + 1) && t.normal.head == s.normal.head && t.normal.consumer == s.normal.consumer
    ensures t.normal.chain[live] == Q.Segment([], 0) && t.normal.producers == s.normal.producers[0 := Q.LoadTail(Item(e, false))]
  {
    hide Q.Entries, Q.InSendOrder, Q.Receipts, Q.RefusedPast, Q.Sends, Leads, Agrees;
    var s4 := Accessed(n, cfg, s, e);
    assert s4.normal.producers[0] == Q.CasTailThenCount(Item(e, false), live - 1);
    var s5 := Accessed(n, cfg, s4, e);
    assert s5.normal.producers[0] == Q.AddSegs(Item(e, false));
    t := Accessed(n, cfg, s5, e);
  }

  lemma FindFull<P(!new)>(n: nat, cfg: Config, s: State<P>, e: Envelope<P>, live: nat) returns (t: State<P>)
    requires Leads(n, cfg, s) && Lanes(s) && |s.producers| >= 1 && Plain(e) && s.producers[0] == Enqueue(Item(e, false)) && s.normal.producers[0].Idle?
    requires R.Lined(s.normal, cfg.normalCap, live) && |s.normal.chain[live - 1].claimed| == cfg.normalCap
    ensures Lanes(t) && Leads(n, cfg, t)
    ensures t == s.(normal := s.normal.(producers := t.normal.producers, sent := t.normal.sent))
    ensures t.normal.producers == s.normal.producers[0 := Q.LoadSegs(Item(e, false), live - 1)]
  {
    hide Q.Entries, Q.InSendOrder, Q.Receipts, Q.RefusedPast, Q.Sends, Leads, Agrees;
    var s1 := Accessed(n, cfg, s, e);
    assert s1.normal.producers[0] == Q.LoadTail(Item(e, false));
    var s2 := Accessed(n, cfg, s1, e);
    assert s2.normal.producers[0] == Q.RingPut(Item(e, false), live - 1);
    t := Accessed(n, cfg, s2, e);
  }

  /** Producer 0 pushes until the one segment of the normal lane is full. */
  lemma {:induction false} FillSegment<P(!new)>(n: nat, cfg: Config, s: State<P>, e: Envelope<P>) returns (t: State<P>)
    requires Leads(n, cfg, s) && Lanes(s) && |s.producers| >= 1 && Plain(e) && s.producers[0].Idle? && !s.closed
    requires R.Lined(s.normal, cfg.normalCap, 1)
    ensures Lanes(t) && Leads(n, cfg, t) && t == s.(normal := t.normal, size := t.size, notify := t.notify)
    ensures R.Lined(t.normal, cfg.normalCap, 1) && t.normal.consumer == s.normal.consumer && t.normal.segs == s.normal.segs
    ensures |t.normal.chain[0].claimed| == cfg.normalCap && t.normal.producers == s.normal.producers
    decreases cfg.normalCap - |s.normal.chain[0].claimed|
  {
    hide Lanes, Leads, LanesFit;
    IdleInLane(s);
    t := s;
    if |s.normal.chain[0].claimed| < cfg.normalCap {
      t := BeginPush(n, cfg, s, e);
      t := Claim(n, cfg, t, e, 1);
      t := Announce(n, cfg, t, e);
      assert t.producers == s.producers && t.normal.producers == s.normal.producers;
      t := FillSegment(n, cfg, t, e);
    }
  }

  lemma IdleInLane<P>(s: State<P>)
    requires Lanes(s) && |s.producers| >= 1 && s.producers[0].Idle?
    ensures |s.normal.producers| == |s.producers| && s.normal.producers[0].Idle?
  {
    assert Agrees(s, 0);
  }

  /** Then it pushes one more, into a second segment. */
  lemma PushBeyond<P(!new)>(n: nat, cfg: Config, s: State<P>, e: Envelope<P>) returns (t: State<P>)
    requires Leads(n, cfg, s) && Lanes(s) && |s.producers| >= 1 && Plain(e) && s.producers[0].Idle? && !s.closed
    requires R.Lined(s.normal, cfg.normalCap, 1) && |s.normal.chain[0].claimed| == cfg.normalCap >= 1 && s.normal.segs < cfg.maxSeg
    ensures Lanes(t) && Leads(n, cfg, t) && t == s.(normal := t.normal, size := s.size + 1, notify := true)
    ensures R.Lined(t.normal, cfg.normalCap, 2) && t.normal.consumer == s.normal.consumer
    ensures |t.normal.chain[1].claimed| == 1 && t.normal.producers == s.normal.producers
  {
    hide Lanes, Leads, LanesFit;
    IdleInLane(s);
    t := BeginPush(n, cfg, s, e);
    t := LinkSegment(n, cfg, t, e, 1);
    t := Claim(n, cfg, t, e, 2);
    t := Announce(n, cfg, t, e);
    assert t.producers == s.producers && t.normal.producers == s.normal.producers;
  }

  // ---------------------------------------------------------------- the run loop

  /** In Pop, a lane with one live, empty segment: looked at and passed over. */
  lemma LookPast<P(!new)>(n: nat, cfg: Config, s: State<P>, u: bool) returns (t: State<P>)
    requires Leads(n, cfg, s) && Lanes(s) && s.consumer == (if u then PopUrgent else PopNormal) && LaneOf(s, u).consumer.Waiting?
    requires var lane := LaneOf(s, u); lane.head + 1 == |lane.chain| && lane.chain[lane.head].taken == |lane.chain[lane.head].claimed|
    ensures Lanes(t) && Leads(n, cfg, t) && t == s.(consumer := if u then PopNormal else Wait)
  {
    hide Q.Entries, Q.InSendOrder, Q.Receipts, Q.RefusedPast, Q.Sends, Leads, Agrees, FrontReady;
    t := Looking(n, cfg, s, u);
    t := Consumed(n, cfg, t);
  }

  /** As far as having found it empty. */
  lemma Looking<P(!new)>(n: nat, cfg: Config, s: State<P>, u: bool) returns (t: State<P>)
    requires Leads(n, cfg, s) && Lanes(s) && s.consumer == (if u then PopUrgent else PopNormal) && LaneOf(s, u).consumer.Waiting?
    requires var lane := LaneOf(s, u); lane.chain[lane.head].taken == |lane.chain[lane.head].claimed|
    ensures Lanes(t) && Leads(n, cfg, t) && t == WithLane(s, u, LaneOf(s, u).(consumer := Q.LoadHeadNext(LaneOf(s, u).head)))
  {
    hide Q.Entries, Q.InSendOrder, Q.Receipts, Q.RefusedPast, Q.Sends, Leads, Agrees, FrontReady;
    t := Consumed(n, cfg, s);
    t := Consumed(n, cfg, t);
    t := Consumed(n, cfg, t);
  }

  /** It moves past the head segment and takes one value from the next, with nobody pushing. */
  lemma TakeFromNext<P(!new)>(n: nat, cfg: Config, s: State<P>) returns (t: State<P>)
    requires Leads(n, cfg, s) && Lanes(s) && s.consumer.PopNormal? && s.normal.consumer.LoadHeadNext?
    requires s.normal.head == 0 && |s.normal.chain| == 2 && s.normal.chain[1].taken == 0 && |s.normal.chain[1].claimed| == 1
    requires forall p :: 0 <= p < |s.producers| ==> s.producers[p].Idle?
    ensures Lanes(t) && Leads(n, cfg, t) && t == s.(normal := t.normal, size := s.size - 1, consumer := PopUrgent)
    ensures t.normal.head == 1 && t.normal.consumer.Waiting?
    ensures t.normal.chain == [s.normal.chain[0], s.normal.chain[1].(taken := 1)]
  {
    hide Lanes, Leads;
    t := MoveOn(n, cfg, s);
    t := TakeFront(n, cfg, t);
    t := Consumed(n, cfg, t);
    t := Consumed(n, cfg, t);
  }

  /** One value off the front segment, with nobody pushing. */
  lemma TakeFront<P(!new)>(n: nat, cfg: Config, s: State<P>) returns (t: State<P>)
    requires Leads(n, cfg, s) && Lanes(s) && s.consumer.PopNormal? && s.normal.consumer.LoadHead?
    requires s.normal.head < |s.normal.chain|
    requires var seg := s.normal.chain[s.normal.head]; seg.taken < |seg.claimed|
    requires forall p :: 0 <= p < |s.producers| ==> s.producers[p].Idle?
    ensures Lanes(t) && Leads(n, cfg, t) && t == s.(normal := t.normal, consumer := t.consumer) && t.consumer.SubSize?
    ensures t.normal == s.normal.(chain := t.normal.chain, consumer := Q.Waiting, received := t.normal.received)
    ensures var h := s.normal.head; t.normal.chain == s.normal.chain[h := s.normal.chain[h].(taken := s.normal.chain[h].taken + 1)]
  {
    hide Q.Entries, Q.InSendOrder, Q.Receipts, Q.RefusedPast, Q.Sends, Leads, Agrees;
    t := Consumed(n, cfg, s);
    assert FrontReady(t, false);
    t := Consumed(n, cfg, t);
  }

  /** The run loop's next access while it moves the normal lane's head on. */
  lemma Walked<P(!new)>(n: nat, cfg: Config, s: State<P>) returns (t: State<P>)
    requires Leads(n, cfg, s) && Lanes(s) && s.consumer.PopNormal?
    ensures Lanes(t) && Leads(n, cfg, t)
    ensures var lane := s.normal;
      && (lane.consumer.LoadHeadNext? && lane.head + 1 < |lane.chain| ==>
           t == s.(normal := lane.(consumer := Q.StoreHead(lane.head + 1))))
      && (lane.consumer.StoreHead? ==> t == s.(normal := lane.(consumer := Q.SubSegs, head := lane.consumer.n)))
      && (lane.consumer.SubSegs? ==> t == s.(normal := lane.(consumer := Q.LoadHead, segs := Plus(lane.segs, WORDS - 1))))
  {
    hide Q.Entries, Q.InSendOrder, Q.Receipts, Q.RefusedPast, Q.Sends, Leads, Agrees, FrontReady, Plus;
    t := Consumed(n, cfg, s);
  }

  lemma MoveOn<P(!new)>(n: nat, cfg: Config, s: State<P>) returns (t: State<P>)
    requires Leads(n, cfg, s) && Lanes(s) && s.consumer.PopNormal? && s.normal.consumer.LoadHeadNext?
    requires s.normal.head + 1 < |s.normal.chain|
    ensures Lanes(t) && Leads(n, cfg, t)
    ensures t == s.(normal := s.normal.(head := s.normal.head + 1, segs := Plus(s.normal.segs, WORDS - 1), consumer := Q.LoadHead))
  {
    hide Lanes, Leads, Plus;
    t := Walked(n, cfg, s);
    t := Walked(n, cfg, t);
    t := Walked(n, cfg, t);
  }

  /** Nothing to be found anywhere: the run loop goes round to Wait, twice if there is a token. */
  lemma {:induction false} BackToWait<P(!new)>(n: nat, cfg: Config, s: State<P>) returns (t: State<P>)
    requires Leads(n, cfg, s) && Lanes(s) && s.consumer.PopUrgent? && !s.closed
    requires s.urgent.consumer.Waiting? && s.normal.consumer.Waiting?
    requires s.urgent.head + 1 == |s.urgent.chain| && s.urgent.chain[s.urgent.head].taken == |s.urgent.chain[s.urgent.head].claimed|
    requires s.normal.head + 1 == |s.normal.chain| && s.normal.chain[s.normal.head].taken == |s.normal.chain[s.normal.head].claimed|
    ensures Lanes(t) && Leads(n, cfg, t) && t == s.(consumer := Wait, notify := false)
    decreases s.notify
  {
    hide Leads;
    t := LookPast(n, cfg, s, true);
    t := LookPast(n, cfg, t, false);
    if s.notify {
      t := Consumed(n, cfg, t);
      hide Lanes;
      t := BackToWait(n, cfg, t);
    }
  }

  // ---------------------------------------------------------------- when blocked and quiet means empty

  /** The run loop is stuck, nobody is pushing, and no token is there. */
  ghost predicate Stuck<P>(s: State<P>) {
    Quiet(s) && s.consumer.Wait? && !s.notify
  }

  lemma QuietAtStart<P>(s: State<P>, t: State<P>)
    requires Quiet(s) && t.producers == s.producers
    ensures Quiet(t) && forall p :: 0 <= p < |t.producers| ==> t.producers[p].Idle?
  {
  }

  /** The run loop finds both lanes empty and pauses; a producer fills a segment of the normal lane and one place of a second; then all go on. */
  lemma StuckRun<P(!new)>(n: nat, cfg: Config, e: Envelope<P>) returns (s: State<P>)
    requires n >= 1 && cfg.normalCap >= 1 && cfg.maxSeg >= 2 && Plain(e)
    ensures Lanes(s) && Leads(n, cfg, s) && Stuck(s)
    ensures |s.normal.chain| == 2 && s.normal.head == 1
    ensures |s.normal.chain[0].claimed| == cfg.normalCap && s.normal.chain[0].taken == 0
  {
    Begins<P>(n, cfg);
    var s0 := Init<P>(n);
    hide Lanes, Leads, LanesFit;
    s := LookPast(n, cfg, s0, true);
    s := Looking(n, cfg, s, false);
    s := FillSegment(n, cfg, s, e);
    s := PushBeyond(n, cfg, s, e);
    QuietAtStart(s0, s);
    s := TakeFromNext(n, cfg, s);
    s := BackToWait(n, cfg, s);
  }

  /** So accepted messages can wait for ever: stuck and quiet, and a whole segment of values is behind head. */
  lemma StuckWithMessages<P(!new)>(n: nat, cfg: Config, e: Envelope<P>) returns (schedule: seq<Move<P>>)
    requires n >= 1 && cfg.normalCap >= 1 && cfg.maxSeg >= 2 && Plain(e)
    ensures Exact(schedule)
    ensures var s := Run(Started<P>(n), cfg, schedule); Stuck(s) && s.size >= cfg.normalCap
  {
    var s := StuckRun(n, cfg, e);
    schedule :| Exact(schedule) && Run(Started<P>(n), cfg, schedule) == s;
    BlockedAndQuietLeavesOnlyStranded(n, cfg, schedule);
    assert L.Stranded(s.normal) == cfg.normalCap by {
      assert L.Untaken(s.normal.chain, 1) == L.Untaken(s.normal.chain, 0) + cfg.normalCap;
    }
    assert L.Stranded(s.urgent) >= 0 by { TotalSplits(s.urgent); }
  }

  ghost predicate StuckMeansEmpty<P(!new)>(n: nat, cfg: Config) {
    forall schedule: seq<Move<P>> :: Stuck(Run(Started<P>(n), cfg, schedule)) ==> Run(Started<P>(n), cfg, schedule).size == 0
  }

  /** In terms of the budget the lanes were given. */
  lemma StuckMeansEmptyIffSmallBudget<P(!new)>(n: nat, cfg: Config, e: Envelope<P>)
    requires n >= 1 && cfg.normalCap >= 1 && Plain(e)
    ensures StuckMeansEmpty<P>(n, cfg) <==> cfg.maxSeg <= 1
  {
    if cfg.maxSeg <= 1 {
      forall schedule: seq<Move<P>> | Stuck(Run(Started<P>(n), cfg, schedule))
        ensures Run(Started<P>(n), cfg, schedule).size == 0
      {
        BlockedAndQuietLeavesOnlyStranded(n, cfg, schedule);
        OneSegmentStrandsNothing(n, cfg, schedule);
      }
    } else {
      var schedule := StuckWithMessages(n, cfg, e);
      assert Stuck(Run(Started<P>(n), cfg, schedule));
    }
  }

  /**
    A run loop stuck in Wait with nobody pushing means an empty mailbox, in every run of a
    mailbox that New makes, exactly when Options.MaxSegments is 1.
   */
  lemma StuckMeansEmptyIffOneSegment<P(!new)>(n: nat, cfg: Config, maxSegments: Word, e: Envelope<P>)
    requires n >= 1 && cfg.normalCap >= 1 && Plain(e) && cfg.maxSeg == Mailboxes.Budget(maxSegments)
    ensures StuckMeansEmpty<P>(n, cfg) <==> maxSegments == 1
  {
    StuckMeansEmptyIffSmallBudget(n, cfg, e);
  }
}
