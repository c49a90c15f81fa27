/**
  When Enqueue can refuse although the queue holds nothing: its ring was full when it looked,
  and by the time it reads `segs` the consumer has taken everything. Rings answer exactly.
 */
module SegmentRefusal {
  import opened Words
  import opened SegmentedSteps
  import opened SegmentedRuns
  import opened SegmentedLoss
  import opened SegmentBudget
  import SegmentCalls

  // ---------------------------------------------------------------- what exact rings add

  /** Was sent on by a full ring, of segment t. */
  predicate FoundFull<V>(pc: Producer<V>) {
    pc.LoadSegs? || pc.LoadNext? || pc.CasNext?
  }

  /** A segment gets a successor only after it has been full, and only the head segment is taken from. */
  ghost predicate Filled<V>(s: State<V>, cap: nat) {
    && (forall a :: 0 <= a < |s.chain| - 1 ==> |s.chain[a].claimed| >= cap)
    && (forall a :: s.head < a < |s.chain| ==> s.chain[a].taken == 0)
    && (s.consumer.SubSegs? ==> s.head < |s.chain| && s.chain[s.head].taken == 0)
    && (forall p :: 0 <= p < |s.producers| && FoundFull(s.producers[p]) ==>
        s.producers[p].t < |s.chain| && |s.chain[s.producers[p].t].claimed| >= cap)
  }

  /** A producer finds a ring full only when it is. */
  lemma FindsFull<V>(s: State<V>, cap: nat, maxSeg: Word, p: nat, v: V)
    requires Inv(s) && Filled(s, cap) && p < |s.producers|
    ensures var t := ProducerStep(s, cap, maxSeg, p, v, true);
      p < |t.producers| && (FoundFull(t.producers[p]) ==> t.chain == s.chain && t.producers[p].t < |s.chain| && |s.chain[t.producers[p].t].claimed| >= cap)
  {
    hide Entries, InSendOrder, Receipts, RefusedPast, Sends;
    assert ProducerFits(s, s.producers[p]);
  }

  lemma OthersStay<V>(s: State<V>, cap: nat, maxSeg: Word, p: nat, v: V, q: nat)
    requires Inv(s) && p < |s.producers| && q < |s.producers| && q != p
    ensures var t := ProducerStep(s, cap, maxSeg, p, v, true); q < |t.producers| && t.producers[q] == s.producers[q]
  {
    hide Entries, InSendOrder, Receipts, RefusedPast, Sends;
  }

  /** The chain grows only behind a full last segment. */
  lemma ProducerLinksFull<V>(s: State<V>, cap: nat, maxSeg: Word, p: nat, v: V)
    requires Inv(s) && Filled(s, cap) && p < |s.producers|
    ensures var t := ProducerStep(s, cap, maxSeg, p, v, true);
      && t.head == s.head && t.consumer == s.consumer && |t.producers| == |s.producers|
      && |s.chain| <= |t.chain| <= |s.chain| + 1
      && (|t.chain| > |s.chain| ==> |t.chain[|s.chain| - 1].claimed| >= cap)
  {
    hide Entries, InSendOrder, Receipts, RefusedPast, Sends;
  }

  lemma InvIsWellformed<V>(s: State<V>)
    requires Inv(s)
    ensures Wellformed(s)
  {
  }

  lemma ProducerKeepsFilled<V>(s: State<V>, cap: nat, maxSeg: Word, p: nat, v: V)
    requires Inv(s) && Filled(s, cap) && p < |s.producers|
    ensures Filled(ProducerStep(s, cap, maxSeg, p, v, true), cap)
  {
    hide Inv, ProducerStep;
    InvIsWellformed(s);
    var t := ProducerStep(s, cap, maxSeg, p, v, true);
    ProducerLinksFull(s, cap, maxSeg, p, v);
    ProducerGrows(s, cap, maxSeg, p, v, true);
    ProducerTakesNothing(s, cap, maxSeg, p, v, true);
    forall q: nat | q < |t.producers|
      ensures FoundFull(t.producers[q]) ==> t.producers[q].t < |t.chain| && |t.chain[t.producers[q].t].claimed| >= cap
    {
      if q == p { FindsFull(s, cap, maxSeg, p, v); } else { OthersStay(s, cap, maxSeg, p, v, q); }
    }
  }

  lemma ConsumerKeepsFilled<V>(s: State<V>, cap: nat)
    requires Inv(s) && Filled(s, cap)
    ensures Filled(ConsumerStep(s, true), cap)
  {
    hide Entries, InSendOrder, Receipts, RefusedPast, Sends;
  }

  /** A lone producer only ever works on the last segment. */
  ghost predicate Alone<V>(s: State<V>) {
    && |s.producers| == 1
    && !s.producers[0].CasTail?
    && (s.producers[0].RingPut? || FoundFull(s.producers[0]) ==> s.producers[0].t == |s.chain| - 1)
    && (if s.producers[0].CasTailThenCount? then s.tail == s.producers[0].t == |s.chain| - 2 else s.tail == |s.chain| - 1)
  }

  lemma StepKeepsAlone<V>(s: State<V>, cap: nat, maxSeg: Word, m: Move<V>)
    requires Inv(s) && Alone(s)
    ensures Alone(Step(s, cap, maxSeg, m))
  {
    hide Entries, InSendOrder, Receipts, RefusedPast, Sends;
  }

  lemma {:induction false} RunKeepsFilled<V>(s: State<V>, cap: nat, maxSeg: Word, moves: seq<Move<V>>)
    requires Inv(s) && Filled(s, cap) && Exact(moves)
    ensures Filled(Run(s, cap, maxSeg, moves), cap)
    decreases |moves|
  {
    hide Filled, Entries, InSendOrder, Receipts, RefusedPast, ProducerStep, ConsumerStep;
    if moves != [] {
      var last := |moves| - 1;
      var before := Run(s, cap, maxSeg, moves[..last]);
      RunKeepsFilled(s, cap, maxSeg, moves[..last]);
      match moves[last]
      case Produce(p, v, ok) => if p < |before.producers| { ProducerKeepsFilled(before, cap, maxSeg, p, v); }
      case Consume(ok) => ConsumerKeepsFilled(before, cap);
    }
  }

  lemma {:induction false} RunKeepsAlone<V>(s: State<V>, cap: nat, maxSeg: Word, moves: seq<Move<V>>)
    requires Inv(s) && Alone(s)
    ensures Alone(Run(s, cap, maxSeg, moves))
    decreases |moves|
  {
    hide Alone, Entries, InSendOrder, Receipts, RefusedPast, Step;
    if moves != [] {
      var last := |moves| - 1;
      RunKeepsAlone(s, cap, maxSeg, moves[..last]);
      StepKeepsAlone(Run(s, cap, maxSeg, moves[..last]), cap, maxSeg, moves[last]);
    }
  }

  // ---------------------------------------------------------------- an empty queue is short

  /** With nothing held, every live segment has been emptied. */
  lemma NothingHeldMeansEmptied<V>(s: State<V>, a: nat)
    requires Inv(s) && Held(s) == 0 && s.head <= a < |s.chain|
    ensures s.chain[a].taken == |s.chain[a].claimed|
  {
    UntakenGrows(s.chain, s.head, |s.chain|);
  }

  /** At most two live segments, only one while a drop is uncounted, so the counter is at most 2. */
  lemma EmptyMeansShort<V>(s: State<V>, cap: nat)
    requires Inv(s) && Filled(s, cap) && cap >= 1 && Held(s) == 0
    ensures Live(s) <= 2 && (s.consumer.SubSegs? ==> Live(s) == 1) && Counted(s) <= 2
  {
    hide Entries, InSendOrder, Receipts, RefusedPast, Sends;
    if s.head + 1 < |s.chain| { NothingHeldMeansEmptied(s, s.head + 1); }
    if s.consumer.SubSegs? { NothingHeldMeansEmptied(s, s.head); }
  }

  /** A lone producer that has found its ring full stands at the head segment, so the counter is 1. */
  lemma EmptyAloneMeansOne<V>(s: State<V>, cap: nat)
    requires Inv(s) && Filled(s, cap) && cap >= 1 && Held(s) == 0 && Alone(s) && s.producers[0].LoadSegs?
    ensures Counted(s) <= 1
  {
    hide Entries, InSendOrder, Receipts, RefusedPast, Sends;
    NothingHeldMeansEmptied(s, |s.chain| - 1);
    assert s.head == |s.chain| - 1 && !s.consumer.SubSegs?;
  }

  // ---------------------------------------------------------------- the exact condition

  /** The access m refuses a call of p, and there is nothing the consumer could take. */
  ghost predicate RefusedEmpty<V>(s: State<V>, cap: nat, maxSeg: Word, m: Move<V>, p: nat)
    requires Inv(s)
  {
    var t := Step(s, cap, maxSeg, m);
    p < |s.refused| && p < |t.refused| && t.refused[p] != s.refused[p] && s.head <= |s.chain| && Held(s) == 0
  }

  ghost predicate NeverRefusedEmpty<V(!new)>(n: nat, cap: nat, maxSeg: Word) {
    forall moves: seq<Move<V>>, m: Move<V>, p: nat :: Exact(moves) ==> !RefusedEmpty(Run(Init<V>(n), cap, maxSeg, moves), cap, maxSeg, m, p)
  }

  lemma RefusedThere<V>(s: State<V>, cap: nat, maxSeg: Word, p: nat, v: V)
    requires Inv(s) && p < |s.producers| && s.producers[p].LoadSegs? && s.segs >= maxSeg && s.head <= |s.chain| && Held(s) == 0
    ensures RefusedEmpty(s, cap, maxSeg, Produce(p, v, true), p)
  {
    hide Inv, Step, Held;
    SegmentCalls.RefusedExactly(s, cap, maxSeg, Produce(p, v, true), p);
  }

  lemma StartsFilled<V>(n: nat, cap: nat)
    ensures Filled(Init<V>(n), cap) && (n == 1 ==> Alone(Init<V>(n)))
  {
    hide Inv;
  }

  /** In exact runs of one or two producers the counter of an empty queue is at most their number when a refusal is near. */
  lemma EmptyCounter<V>(n: nat, cap: nat, maxSeg: Word, moves: seq<Move<V>>, p: nat)
    requires 1 <= n <= 2 && cap >= 1 && Exact(moves)
    requires var s := Run(Init<V>(n), cap, maxSeg, moves); p < |s.producers| && s.producers[p].LoadSegs? && s.head <= |s.chain| && Held(s) == 0
    ensures Counted(Run(Init<V>(n), cap, maxSeg, moves)) <= n
  {
    hide Inv, Filled, Alone, Run, Held, Counted, Exact;
    var s := Run(Init<V>(n), cap, maxSeg, moves);
    StartsFilled<V>(n, cap);
    RunKeepsFilled(Init<V>(n), cap, maxSeg, moves);
    EmptyMeansShort(s, cap);
    if n == 1 {
      RunKeepsAlone(Init<V>(n), cap, maxSeg, moves);
      assert |s.producers| == 1;
      EmptyAloneMeansOne(s, cap);
    }
  }

  lemma NotRefusedEmpty<V>(n: nat, cap: nat, maxSeg: Word, moves: seq<Move<V>>, m: Move<V>, p: nat)
    requires n >= 1 && cap >= 1 && maxSeg >= 1 && maxSeg + n < WORDS && n <= 2 && n < maxSeg && Exact(moves)
    ensures !RefusedEmpty(Run(Init<V>(n), cap, maxSeg, moves), cap, maxSeg, m, p)
  {
    hide Inv, Run, Held, Counted, Exact, Step;
    var s := Run(Init<V>(n), cap, maxSeg, moves);
    LengthsOf(s);
    if RefusedEmpty(s, cap, maxSeg, m, p) {
      assert |s.producers| == n;
      RefusalUnderRaces(n, cap, maxSeg, moves, m, p);
      EmptyCounter(n, cap, maxSeg, moves, p);
      CountedIsNotNegative(n, cap, maxSeg, moves, p);
    }
  }

  lemma LengthsOf<V>(s: State<V>)
    requires Inv(s)
    ensures |s.refused| == |s.producers|
  {
  }

  /** With a budget of one: the producer finds the ring full, the consumer takes everything, and then it reads `segs`. */
  lemma RefusedAtBudgetOne<V(!new)>(n: nat, cap: nat, v: V) returns (moves: seq<Move<V>>)
    requires n >= 1 && cap >= 1
    ensures Exact(moves) && RefusedEmpty(Run(Init<V>(n), cap, 1, moves), cap, 1, Produce(0, v, true), 0)
  {
    var s0 := Init<V>(n);
    LeadsNowhere(s0, cap, 1);
    assert Lined(s0, cap, 1);
    hide Inv, Leads;
    var s := FillTail(s0, cap, 1, s0, 1, 0, v);
    s := StallAtSegs(s0, cap, 1, s, 1, 0, v);
    s := StartTaking(s0, cap, 1, s);
    s := TakeAll(s0, cap, 1, s);
    moves := Witness(s0, cap, 1, s);
    OneEmptied(s);
    RefusedThere(s, cap, 1, 0, v);
  }

  lemma StartTaking<V(!new)>(s0: State<V>, cap: nat, maxSeg: Word, s: State<V>) returns (t: State<V>)
    requires Inv(s0) && Leads(s0, cap, maxSeg, s) && s.consumer.Waiting?
    ensures Inv(t) && Leads(s0, cap, maxSeg, t) && t == s.(consumer := LoadHead)
  {
    hide Leads, Entries, InSendOrder, Receipts, RefusedPast;
    t := Consumed(s0, cap, maxSeg, s);
  }

  lemma OneEmptied<V>(s: State<V>)
    requires s.head < |s.chain| && forall a :: s.head <= a < |s.chain| ==> |s.chain[a].claimed| == s.chain[a].taken
    requires |s.chain| <= s.head + 2
    ensures Held(s) == 0
  {
    assert Untaken(s.chain, s.head + 1) == Untaken(s.chain, s.head);
    if |s.chain| == s.head + 2 { assert Untaken(s.chain, s.head + 2) == Untaken(s.chain, s.head + 1); }
  }

  /** With two producers and a budget of two: one finds segment 0 full, the other links and counts segment 1, the consumer empties segment 0. */
  lemma RefusedAtBudgetTwo<V(!new)>(n: nat, cap: nat, v: V) returns (moves: seq<Move<V>>)
    requires n >= 2 && cap >= 1
    ensures Exact(moves) && RefusedEmpty(Run(Init<V>(n), cap, 2, moves), cap, 2, Produce(1, v, true), 1)
  {
    hide Inv, Leads, Run, Exact, Untaken;
    var s0 := Init<V>(n);
    LeadsNowhere(s0, cap, 2);
    assert Lined(s0, cap, 1);
    var s := FillTail(s0, cap, 2, s0, 1, 0, v);
    s := StallAtSegs(s0, cap, 2, s, 1, 1, v);
    s := FillAndLink(s0, cap, 2, s, 1, 0, v);
    s := CountLink(s0, cap, 2, s, 0);
    s := StartTaking(s0, cap, 2, s);
    s := TakeAll(s0, cap, 2, s);
    moves := Witness(s0, cap, 2, s);
    OneEmptied(s);
    RefusedThere(s, cap, 2, 1, v);
  }

  lemma CountLink<V(!new)>(s0: State<V>, cap: nat, maxSeg: Word, s: State<V>, p: nat) returns (t: State<V>)
    requires Inv(s0) && Leads(s0, cap, maxSeg, s) && p < |s.producers| && s.producers[p].AddSegs?
    ensures Inv(t) && Leads(s0, cap, maxSeg, t)
    ensures t == s.(producers := s.producers[p := LoadTail(s.producers[p].v)], segs := Plus(s.segs, 1))
  {
    hide Leads, Entries, InSendOrder, Receipts, RefusedPast;
    t := Produced(s0, cap, maxSeg, s, p, s.producers[p].v);
  }

  /**
    Whatever the interleaving, with rings that answer exactly: Enqueue never answers false on a
    queue that holds nothing, exactly with at most two producers and a budget larger than
    their number.
   */
  lemma NeverRefusedEmptyIff<V(!new)>(n: nat, cap: nat, maxSeg: Word, v: V)
    requires n >= 1 && cap >= 1 && maxSeg >= 1 && maxSeg + n < WORDS
    ensures NeverRefusedEmpty<V>(n, cap, maxSeg) <==> n <= 2 && n < maxSeg
  {
    hide Exact, Run, RefusedEmpty, Inv;
    if n <= 2 && n < maxSeg {
      forall moves: seq<Move<V>>, m: Move<V>, p: nat | Exact(moves)
        ensures !RefusedEmpty(Run(Init<V>(n), cap, maxSeg, moves), cap, maxSeg, m, p)
      {
        NotRefusedEmpty(n, cap, maxSeg, moves, m, p);
      }
    } else if maxSeg == 1 {
      var moves := RefusedAtBudgetOne(n, cap, v);
    } else if n >= 3 {
      var moves := RefusedAtWrap(n, cap, maxSeg, v);
    } else {
      var moves := RefusedAtBudgetTwo(n, cap, v);
    }
  }

  lemma RefusedAtWrap<V(!new)>(n: nat, cap: nat, maxSeg: Word, v: V) returns (moves: seq<Move<V>>)
    requires n >= 3 && cap >= 1 && maxSeg >= 2
    ensures Exact(moves) && RefusedEmpty(Run(Init<V>(n), cap, maxSeg, moves), cap, maxSeg, Produce(2, v, true), 2)
  {
    moves := EmptyQueueRefuses(n, cap, maxSeg, v);
    RefusedThere(Run(Init<V>(n), cap, maxSeg, moves), cap, maxSeg, 2, v);
  }
}
