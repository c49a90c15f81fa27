/**
  The chain seen call by call: when Enqueue and Dequeue return and with what, that a call goes
  on with its own value, and how many steps the retries of Enqueue's loop can cost.
 */
module SegmentCalls {
  import opened Words
  import opened SegmentedSteps

  // ---------------------------------------------------------------- how calls end

  /** The access that answers false. */
  predicate Refuses<V>(s: State<V>, maxSeg: Word, m: Move<V>, p: nat) {
    m.Produce? && m.p == p < |s.producers| && s.producers[p].LoadSegs? && s.segs >= maxSeg
  }

  /** The access that answers true. */
  predicate Accepts<V>(s: State<V>, cap: nat, m: Move<V>, p: nat) {
    m.Produce? && m.p == p < |s.producers| && s.producers[p].RingPut? && s.producers[p].t < |s.chain| && m.ok
    && |s.chain[s.producers[p].t].claimed| - s.chain[s.producers[p].t].taken < cap
  }

  /** A call is recorded as refused by exactly one kind of access: its own, reading a counter at or above the budget. */
  lemma RefusedExactly<V>(s: State<V>, cap: nat, maxSeg: Word, m: Move<V>, p: nat)
    requires Inv(s) && p < |s.producers|
    ensures var t := Step(s, cap, maxSeg, m);
      && |t.refused| == |s.refused| == |s.producers| == |s.sent|
      && (t.refused[p] != s.refused[p] <==> Refuses(s, maxSeg, m, p))
      && (t.refused[p] != s.refused[p] ==> s.sent[p] != [] && t.refused[p] == s.refused[p] + {|s.sent[p]| - 1})
  {
    hide Entries, InSendOrder, Receipts;
    assert ProducerFits(s, s.producers[p]) && Sends(s.producers[p], s.sent[p]);
    if Refuses(s, maxSeg, m, p) {
      assert |s.sent[p]| - 1 !in s.refused[p];
    }
  }

  /** The places claimed in segment a. */
  function ClaimedIn<V>(s: State<V>, a: nat): seq<Message<V>> {
    if a < |s.chain| then s.chain[a].claimed else []
  }

  /** An access adds a message to a segment exactly when it answers true, and then that call's message. */
  lemma ClaimedExactly<V>(s: State<V>, cap: nat, maxSeg: Word, m: Move<V>, a: nat)
    requires Inv(s)
    ensures var t := Step(s, cap, maxSeg, m);
      ClaimedIn(t, a) == ClaimedIn(s, a) +
        if m.Produce? && Accepts(s, cap, m, m.p) && s.producers[m.p].t == a
        then [Message(m.p, (if m.p < |s.sent| then |s.sent[m.p]| else 0) - 1, s.producers[m.p].v)] else []
  {
    hide Entries, InSendOrder, Receipts, RefusedPast;
    if m.Produce? && m.p < |s.producers| {
      assert ProducerFits(s, s.producers[m.p]) && Sends(s.producers[m.p], s.sent[m.p]);
    }
  }

  /** A call of Enqueue returns exactly when it answers true or false; else it goes on, with the value it was called with. */
  lemma CallEndsExactly<V>(s: State<V>, cap: nat, maxSeg: Word, m: Move<V>, p: nat)
    requires Inv(s) && p < |s.producers| && !s.producers[p].Idle?
    ensures var t := Step(s, cap, maxSeg, m);
      && p < |t.producers| && p < |t.sent|
      && (t.producers[p].Idle? <==> Refuses(s, maxSeg, m, p) || Accepts(s, cap, m, p))
      && (!t.producers[p].Idle? ==> t.producers[p].v == s.producers[p].v && t.sent[p] == s.sent[p])
  {
    assert |s.producers| == |s.sent|;
    hide Inv, Step, Refuses, Accepts;
    if m.Produce? && m.p == p {
      EndsAt(s, cap, maxSeg, p, m.v, m.ok);
      KeepsValue(s, cap, maxSeg, p, m.v, m.ok);
      StepIsMine(s, cap, maxSeg, m);
    } else {
      OtherStands(s, cap, maxSeg, m, p);
      OnlyMine(s, cap, maxSeg, m, p);
    }
  }

  lemma StepIsMine<V>(s: State<V>, cap: nat, maxSeg: Word, m: Move<V>)
    requires Inv(s) && m.Produce? && m.p < |s.producers|
    ensures Step(s, cap, maxSeg, m) == ProducerStep(s, cap, maxSeg, m.p, m.v, m.ok)
  {
    hide Entries, InSendOrder, Receipts, RefusedPast, ProducerStep;
  }

  lemma OnlyMine<V>(s: State<V>, cap: nat, maxSeg: Word, m: Move<V>, p: nat)
    ensures !(m.Produce? && m.p == p) ==> !Refuses(s, maxSeg, m, p) && !Accepts(s, cap, m, p)
  {
  }

  lemma EndsAt<V>(s: State<V>, cap: nat, maxSeg: Word, p: nat, v: V, ok: bool)
    requires Inv(s) && p < |s.producers| && !s.producers[p].Idle?
    ensures var t := ProducerStep(s, cap, maxSeg, p, v, ok); var m := Produce(p, v, ok);
      p < |t.producers| && (t.producers[p].Idle? <==> Refuses(s, maxSeg, m, p) || Accepts(s, cap, m, p))
  {
    hide Entries, InSendOrder, Receipts, RefusedPast, ConsumerFits;
    assert ProducerFits(s, s.producers[p]) && Sends(s.producers[p], s.sent[p]);
  }

  lemma KeepsValue<V>(s: State<V>, cap: nat, maxSeg: Word, p: nat, v: V, ok: bool)
    requires Inv(s) && p < |s.producers| && !s.producers[p].Idle?
    ensures var t := ProducerStep(s, cap, maxSeg, p, v, ok);
      && p < |t.producers| && p < |t.sent| && p < |s.sent|
      && (!t.producers[p].Idle? ==> t.producers[p].v == s.producers[p].v) && t.sent[p] == s.sent[p]
  {
    hide Entries, InSendOrder, Receipts, RefusedPast, ConsumerFits;
    assert Sends(s.producers[p], s.sent[p]);
  }

  /** Another's access, or the consumer's, leaves p and its calls alone, while tail and the chain only grow. */
  lemma OtherStands<V>(s: State<V>, cap: nat, maxSeg: Word, m: Move<V>, p: nat)
    requires Inv(s) && p < |s.producers| && !(m.Produce? && m.p == p)
    ensures var t := Step(s, cap, maxSeg, m);
      && p < |t.producers| && t.producers[p] == s.producers[p]
      && p < |s.sent| && p < |t.sent| && t.sent[p] == s.sent[p]
  {
    hide Entries, InSendOrder, Receipts, RefusedPast, ProducerFits, ConsumerFits, Sends;
  }

  /** A call begins with its argument; nothing but that begins one. */
  lemma CallBegins<V>(s: State<V>, cap: nat, maxSeg: Word, m: Move<V>, p: nat)
    requires Inv(s) && p < |s.producers| && s.producers[p].Idle?
    ensures var t := Step(s, cap, maxSeg, m); var begins := m.Produce? && m.p == p;
      && p < |t.producers| && p < |t.sent| && p < |s.sent|
      && (t.producers[p].Idle? <==> !begins)
      && (begins ==> t.producers[p].v == m.v)
      && t.sent[p] == s.sent[p] + if begins then [m.v] else []
  {
    hide Entries, InSendOrder, Receipts, RefusedPast;
  }

  /** Dequeue returns a value exactly when a ring gives it one, and nil exactly when the head segment has no successor. */
  lemma DequeueEndsExactly<V>(s: State<V>, cap: nat, maxSeg: Word, m: Move<V>)
    requires Inv(s) && !s.consumer.Waiting?
    ensures var t := Step(s, cap, maxSeg, m);
      var gets := m.Consume? && m.ok && s.consumer.RingTake? && s.chain[s.head].taken < |s.chain[s.head].claimed|;
      var nothing := m.Consume? && s.consumer.LoadHeadNext? && s.head == |s.chain| - 1;
      && (t.consumer.Waiting? <==> gets || nothing)
      && t.received == s.received +
           if gets then [Receipt(s.chain[s.head].claimed[s.chain[s.head].taken], s.head, s.chain[s.head].taken)] else []
  {
    hide Entries, InSendOrder, Receipts, RefusedPast;
  }

  /** Whoever links a segment, or finds one linked, sees to it that tail has moved beyond the old last one before it goes on. */
  lemma TailFollowsLinks<V>(s: State<V>, cap: nat, maxSeg: Word, m: Move<V>, p: nat)
    requires Inv(s) && p < |s.producers| && m.Produce? && m.p == p
    requires s.producers[p].CasTailThenCount? || s.producers[p].CasTail?
    ensures Step(s, cap, maxSeg, m).tail > s.producers[p].t
    ensures Step(s, cap, maxSeg, m).tail == s.tail || (s.tail == s.producers[p].t && Step(s, cap, maxSeg, m).tail == s.tail + 1)
  {
    hide Entries, InSendOrder, Receipts, RefusedPast;
    assert ProducerFits(s, s.producers[p]);
  }

  // ---------------------------------------------------------------- what its retries cost

  /** Back at the top of Enqueue's loop. */
  predicate Returns<V>(s: State<V>, cap: nat, maxSeg: Word, m: Move<V>, p: nat)
    requires Wellformed(s)
  {
    m.Produce? && m.p == p < |s.producers| && !s.producers[p].Idle? && !s.producers[p].LoadTail?
    && p < |Step(s, cap, maxSeg, m).producers| && Step(s, cap, maxSeg, m).producers[p].LoadTail?
  }

  /** Counts tail's moves twice, and a link that tail has not followed yet once. */
  function Progress<V>(s: State<V>): nat {
    2 * s.tail + if s.tail + 1 < |s.chain| then 1 else 0
  }

  /** The progress producer p knows of. */
  function Known<V>(s: State<V>, p: nat): int
    requires p < |s.producers|
  {
    var pc := s.producers[p];
    if pc.RingPut? || pc.LoadSegs? || pc.LoadNext? then 2 * pc.t + (if pc.t + 1 < |s.chain| then 1 else 0)
    else if pc.CasNext? || pc.CasTailThenCount? then 2 * pc.t
    else if pc.CasTail? then 2 * pc.t + 1
    else if pc.AddSegs? then Progress(s) - 1
    else Progress(s)
  }

  lemma KnownIsBehind<V>(s: State<V>, p: nat)
    requires Inv(s) && p < |s.producers|
    ensures Known(s, p) <= Progress(s) <= 2 * (|s.chain| - 1)
  {
    hide Entries, InSendOrder, Receipts, RefusedPast;
    assert ProducerFits(s, s.producers[p]);
  }

  /** Tail and the chain only grow. */
  lemma ProgressGrows<V>(s: State<V>, cap: nat, maxSeg: Word, m: Move<V>)
    requires Inv(s)
    ensures var t := Step(s, cap, maxSeg, m); s.tail <= t.tail && |s.chain| <= |t.chain| && Progress(s) <= Progress(t)
  {
    hide Entries, InSendOrder, Receipts, RefusedPast, Sends;
    if m.Produce? && m.p < |s.producers| { assert ProducerFits(s, s.producers[m.p]); }
  }

  /** Up to the look at next. */
  lemma LookingKnows<V>(s: State<V>, cap: nat, maxSeg: Word, p: nat, v: V, ok: bool)
    requires Inv(s) && p < |s.producers|
    requires var pc := s.producers[p]; pc.Idle? || pc.LoadTail? || pc.RingPut? || pc.LoadSegs? || pc.LoadNext?
    ensures var t := ProducerStep(s, cap, maxSeg, p, v, ok);
      p < |t.producers| && Known(s, p) <= Known(t, p) && (t.producers[p].LoadTail? ==> s.producers[p].Idle?)
  {
    hide Entries, InSendOrder, Receipts, RefusedPast, ConsumerFits, Sends;
    assert ProducerFits(s, s.producers[p]);
  }

  /** From there on. */
  lemma LinkingKnows<V>(s: State<V>, cap: nat, maxSeg: Word, p: nat, v: V, ok: bool)
    requires Inv(s) && p < |s.producers|
    requires var pc := s.producers[p]; pc.CasNext? || pc.CasTailThenCount? || pc.AddSegs? || pc.CasTail?
    ensures var t := ProducerStep(s, cap, maxSeg, p, v, ok);
      p < |t.producers| && Known(s, p) + (if t.producers[p].LoadTail? then 1 else 0) <= Known(t, p)
  {
    hide Entries, InSendOrder, Receipts, RefusedPast, ConsumerFits, Sends;
    assert ProducerFits(s, s.producers[p]);
  }

  lemma OwnStepKnows<V>(s: State<V>, cap: nat, maxSeg: Word, p: nat, v: V, ok: bool)
    requires Inv(s) && p < |s.producers|
    ensures var t := ProducerStep(s, cap, maxSeg, p, v, ok);
      && p < |t.producers|
      && Known(s, p) + (if Returns(s, cap, maxSeg, Produce(p, v, ok), p) then 1 else 0) <= Known(t, p)
  {
    StepIsMine(s, cap, maxSeg, Produce(p, v, ok));
    hide Inv, ProducerStep, Step, Known;
    var pc := s.producers[p];
    if pc.CasNext? || pc.CasTailThenCount? || pc.AddSegs? || pc.CasTail? {
      LinkingKnows(s, cap, maxSeg, p, v, ok);
    } else {
      LookingKnows(s, cap, maxSeg, p, v, ok);
    }
  }

  lemma OtherStepKnows<V>(s: State<V>, cap: nat, maxSeg: Word, m: Move<V>, p: nat)
    requires Inv(s) && p < |s.producers| && !(m.Produce? && m.p == p)
    ensures var t := Step(s, cap, maxSeg, m);
      p < |t.producers| && t.producers[p] == s.producers[p] && Known(s, p) <= Known(t, p)
  {
    hide Inv, Step, Progress;
    OtherStands(s, cap, maxSeg, m, p);
    ProgressGrows(s, cap, maxSeg, m);
  }

  /** How often producer p went back to the top of its loop. */
  ghost function ReturnsBy<V>(s: State<V>, cap: nat, maxSeg: Word, schedule: seq<Move<V>>, p: nat): nat
    requires Inv(s)
    decreases |schedule|
  {
    if schedule == [] then 0
    else
      var last := |schedule| - 1;
      ReturnsBy(s, cap, maxSeg, schedule[..last], p)
      + if Returns(Run(s, cap, maxSeg, schedule[..last]), cap, maxSeg, schedule[last], p) then 1 else 0
  }

  lemma {:induction false} ReturnsAreKnown<V>(s0: State<V>, cap: nat, maxSeg: Word, schedule: seq<Move<V>>, p: nat)
    requires Inv(s0) && p < |s0.producers| && s0.producers[p].Idle?
    ensures ReturnsBy(s0, cap, maxSeg, schedule, p) <= Known(Run(s0, cap, maxSeg, schedule), p)
    decreases |schedule|
  {
    hide Inv, Step, Returns;
    if schedule == [] {
    } else {
      var last := |schedule| - 1;
      var before, m := Run(s0, cap, maxSeg, schedule[..last]), schedule[last];
      ReturnsAreKnown(s0, cap, maxSeg, schedule[..last], p);
      StepKnows(before, cap, maxSeg, m, p);
    }
  }

  lemma StepKnows<V>(s: State<V>, cap: nat, maxSeg: Word, m: Move<V>, p: nat)
    requires Inv(s) && p < |s.producers|
    ensures var t := Step(s, cap, maxSeg, m);
      p < |t.producers| && Known(s, p) + (if Returns(s, cap, maxSeg, m, p) then 1 else 0) <= Known(t, p)
  {
    hide Inv, Known, ProducerStep;
    if m.Produce? && m.p == p {
      OwnStepKnows(s, cap, maxSeg, p, m.v, m.ok);
    } else {
      OtherStepKnows(s, cap, maxSeg, m, p);
    }
  }

  /** In every run a producer goes back to the top of Enqueue's loop at most twice for each segment ever linked. */
  lemma ReturnsAreBounded<V>(n: nat, cap: nat, maxSeg: Word, schedule: seq<Move<V>>, p: nat)
    requires p < n
    ensures ReturnsBy(Init<V>(n), cap, maxSeg, schedule, p) <= 2 * (|Run(Init<V>(n), cap, maxSeg, schedule).chain| - 1)
  {
    ReturnsAreKnown(Init<V>(n), cap, maxSeg, schedule, p);
    KnownIsBehind(Run(Init<V>(n), cap, maxSeg, schedule), p);
  }

  /** Steps to the end of the pass. */
  function Left<V>(pc: Producer<V>): nat {
    match pc
    case Idle => 0
    case LoadTail(_) => 7
    case RingPut(_, _) => 6
    case LoadSegs(_, _) => 5
    case LoadNext(_, _) => 4
    case CasNext(_, _) => 3
    case CasTailThenCount(_, _) => 2
    case AddSegs(_) => 1
    case CasTail(_, _) => 1
  }

  /** The steps of p inside its calls. */
  ghost function StepsBy<V>(s: State<V>, cap: nat, maxSeg: Word, schedule: seq<Move<V>>, p: nat): nat
    requires Inv(s) && p < |s.producers|
    decreases |schedule|
  {
    if schedule == [] then 0
    else
      var last := |schedule| - 1;
      StepsBy(s, cap, maxSeg, schedule[..last], p)
      + if schedule[last].Produce? && schedule[last].p == p && !Run(s, cap, maxSeg, schedule[..last]).producers[p].Idle? then 1 else 0
  }

  /** A step is paid for by the call it begins or by its going back to the top. */
  lemma StepPays<V>(s: State<V>, cap: nat, maxSeg: Word, m: Move<V>, p: nat)
    requires Inv(s) && p < |s.producers|
    ensures var t := Step(s, cap, maxSeg, m);
      && p < |t.producers| && p < |t.sent| && p < |s.sent|
      && (if m.Produce? && m.p == p && !s.producers[p].Idle? then 1 else 0) + Left(t.producers[p]) + 7 * |s.sent[p]|
           <= Left(s.producers[p]) + 7 * |t.sent[p]| + 7 * (if Returns(s, cap, maxSeg, m, p) then 1 else 0)
  {
    hide Entries, InSendOrder, Receipts, RefusedPast;
    if m.Produce? && m.p == p {
      OwnStepPays(s, cap, maxSeg, m, p);
    } else {
      OtherStands(s, cap, maxSeg, m, p);
      hide ProducerStep, ConsumerStep;
    }
  }

  lemma OwnStepPays<V>(s: State<V>, cap: nat, maxSeg: Word, m: Move<V>, p: nat)
    requires Inv(s) && p < |s.producers| && m.Produce? && m.p == p
    ensures var t := Step(s, cap, maxSeg, m);
      && p < |t.producers| && p < |t.sent| && p < |s.sent|
      && (if s.producers[p].Idle? then 0 else 1) + Left(t.producers[p]) + 7 * |s.sent[p]|
           <= Left(s.producers[p]) + 7 * |t.sent[p]| + 7 * (if Returns(s, cap, maxSeg, m, p) then 1 else 0)
  {
    hide Entries, InSendOrder, Receipts, RefusedPast;
  }

  lemma {:induction false} StepsArePaid<V>(s0: State<V>, cap: nat, maxSeg: Word, schedule: seq<Move<V>>, p: nat)
    requires Inv(s0) && p < |s0.producers| && p < |s0.sent| && s0.producers[p].Idle? && s0.sent[p] == []
    ensures var s := Run(s0, cap, maxSeg, schedule);
      && p < |s.sent|
      && StepsBy(s0, cap, maxSeg, schedule, p) + Left(s.producers[p]) <= 7 * |s.sent[p]| + 7 * ReturnsBy(s0, cap, maxSeg, schedule, p)
    decreases |schedule|
  {
    hide Inv, Step, Returns, Left;
    if schedule == [] {
      assert Left(s0.producers[p]) == 0 by { IdleHasNothingLeft(s0.producers[p]); }
    } else {
      var last := |schedule| - 1;
      StepsArePaid(s0, cap, maxSeg, schedule[..last], p);
      StepPays(Run(s0, cap, maxSeg, schedule[..last]), cap, maxSeg, schedule[last], p);
    }
  }

  lemma IdleHasNothingLeft<V>(pc: Producer<V>)
    requires pc.Idle?
    ensures Left(pc) == 0
  {
  }

  /** Lock freedom, counted: c calls of one producer take at most 7 * (c + 2 * l) steps, where l segments have been linked by anyone. */
  lemma EnqueuesTakeBoundedWork<V>(n: nat, cap: nat, maxSeg: Word, schedule: seq<Move<V>>, p: nat)
    requires p < n
    ensures var s := Run(Init<V>(n), cap, maxSeg, schedule);
      p < |s.sent| && StepsBy(Init<V>(n), cap, maxSeg, schedule, p) <= 7 * (|s.sent[p]| + 2 * (|s.chain| - 1))
  {
    hide Inv, Run, StepsBy, ReturnsBy;
    StepsArePaid(Init<V>(n), cap, maxSeg, schedule, p);
    ReturnsAreBounded<V>(n, cap, maxSeg, schedule, p);
  }
}
