/**
  The segment budget under concurrency. Enqueue reads `segs` before it links a segment and
  counts it afterwards, so the counter lags behind the chain and what was read can be stale.
 */
module SegmentBudget {
  import opened Words
  import opened SegmentedSteps
  import opened SegmentedRuns
  import SegmentCalls
  import SegmentedLoss

  /** Linked a segment and has yet to count it. */
  predicate Adding<V>(pc: Producer<V>) {
    pc.CasTailThenCount? || pc.AddSegs?
  }

  /** Found room in the budget and may still link a segment. */
  predicate Allowed<V>(pc: Producer<V>) {
    pc.LoadNext? || pc.CasNext?
  }

  function Adders<V>(producers: seq<Producer<V>>): nat {
    if producers == [] then 0
    else Adders(producers[..|producers| - 1]) + if Adding(producers[|producers| - 1]) then 1 else 0
  }

  function Holders<V>(producers: seq<Producer<V>>): nat {
    if producers == [] then 0
    else Holders(producers[..|producers| - 1]) + if Allowed(producers[|producers| - 1]) then 1 else 0
  }

  lemma {:induction false} CountsUpdate<V>(producers: seq<Producer<V>>, p: nat, pc: Producer<V>)
    requires p < |producers|
    ensures Adders(producers[p := pc]) == Adders(producers) - (if Adding(producers[p]) then 1 else 0) + (if Adding(pc) then 1 else 0)
    ensures Holders(producers[p := pc]) == Holders(producers) - (if Allowed(producers[p]) then 1 else 0) + (if Allowed(pc) then 1 else 0)
  {
    var last := |producers| - 1;
    if p == last {
      assert producers[p := pc][..last] == producers[..last];
    } else {
      assert producers[p := pc][..last] == producers[..last][p := pc];
      CountsUpdate(producers[..last], p, pc);
    }
  }

  lemma {:induction false} CountsFit<V>(producers: seq<Producer<V>>)
    ensures Adders(producers) + Holders(producers) <= |producers|
  {
    if producers != [] { CountsFit(producers[..|producers| - 1]); }
  }

  lemma {:induction false} NobodyCounts<V>(n: nat)
    ensures Adders(seq(n, _ => Producer<V>.Idle)) == 0 && Holders(seq(n, _ => Producer<V>.Idle)) == 0
  {
    if n > 0 {
      NobodyCounts<V>(n - 1);
      assert seq(n, _ => Producer<V>.Idle)[..n - 1] == seq(n - 1, _ => Producer<V>.Idle);
    }
  }

  /** The segments from head on. */
  function Live<V>(s: State<V>): int {
    |s.chain| - s.head
  }

  /** What `segs` holds before wrapping: the live segments, but for links and drops not counted yet. */
  function Counted<V>(s: State<V>): int {
    Live(s) - Adders(s.producers) + if s.consumer.SubSegs? then 1 else 0
  }

  ghost predicate InBudget<V>(s: State<V>, maxSeg: Word) {
    && s.segs == Wrap(Counted(s))
    && Live(s) + Holders(s.producers) <= maxSeg - 1 + |s.producers|
  }

  lemma WrapAdds(x: int, d: nat)
    ensures Plus(Wrap(x), d) == Wrap(x + d)
    ensures Wrap(x + d + WORDS) == Wrap(x + d)
  {
  }

  /** A counter below the budget means that the live segments leave room, give or take the links not counted yet. */
  lemma BelowBudgetMeansRoom<V>(s: State<V>, maxSeg: Word, p: nat)
    requires Wellformed(s) && InBudget(s, maxSeg) && p < |s.producers| && s.producers[p].LoadSegs?
    requires maxSeg + |s.producers| < WORDS && s.segs < maxSeg
    ensures Live(s) + Holders(s.producers) + 1 <= maxSeg - 1 + |s.producers|
  {
    CountsUpdate(s.producers, p, AddSegs(s.producers[p].v));
    CountsFit(s.producers[p := AddSegs(s.producers[p].v)]);
    hide Adders, Holders, Wellformed;
    assert -|s.producers| < Counted(s) < WORDS;
    assert Counted(s) < maxSeg;
  }

  /** The books of one producer access: linking moves from Holders to Live and Adders, counting settles an Adder. */
  lemma ProducerBooks<V>(s: State<V>, cap: nat, maxSeg: Word, p: nat, v: V, ok: bool)
    requires Wellformed(s) && p < |s.producers|
    ensures var t, pc := ProducerStep(s, cap, maxSeg, p, v, ok), s.producers[p];
      && |t.producers| == |s.producers|
      && t.segs == (if pc.AddSegs? then Plus(s.segs, 1) else s.segs)
      && Counted(t) == Counted(s) + (if pc.AddSegs? then 1 else 0)
      && Live(t) + Holders(t.producers) <= Live(s) + Holders(s.producers) + (if pc.LoadSegs? && s.segs < maxSeg then 1 else 0)
  {
    hide Adders, Holders, Plus;
    var t := ProducerStep(s, cap, maxSeg, p, v, ok);
    assert ProducerFits(s, s.producers[p]) && s.tail < |s.chain|;
    hide Wellformed;
    assert t.producers == s.producers[p := t.producers[p]];
    CountsUpdate(s.producers, p, t.producers[p]);
  }

  lemma ProducerKeepsBudget<V>(s: State<V>, cap: nat, maxSeg: Word, p: nat, v: V, ok: bool)
    requires Wellformed(s) && InBudget(s, maxSeg) && p < |s.producers| && maxSeg + |s.producers| < WORDS
    ensures InBudget(ProducerStep(s, cap, maxSeg, p, v, ok), maxSeg)
  {
    ProducerBooks(s, cap, maxSeg, p, v, ok);
    if s.producers[p].LoadSegs? && s.segs < maxSeg { BelowBudgetMeansRoom(s, maxSeg, p); }
    WrapAdds(Counted(s), 1);
    hide ProducerStep, Adders, Holders, Wrap, Plus, Counted, Live;
  }

  lemma ConsumerKeepsBudget<V>(s: State<V>, maxSeg: Word, ok: bool)
    requires Wellformed(s) && InBudget(s, maxSeg)
    ensures InBudget(ConsumerStep(s, ok), maxSeg)
  {
    WrapAdds(Counted(s) - 1, 0);
    WrapAdds(Counted(s), WORDS - 1);
    hide Adders, Holders, Wrap, Plus;
  }

  lemma {:induction false} RunKeepsBudget<V>(s: State<V>, cap: nat, maxSeg: Word, schedule: seq<Move<V>>)
    requires Inv(s) && InBudget(s, maxSeg) && maxSeg + |s.producers| < WORDS
    ensures InBudget(Run(s, cap, maxSeg, schedule), maxSeg)
    decreases |schedule|
  {
    if schedule != [] {
      var last := |schedule| - 1;
      var before := Run(s, cap, maxSeg, schedule[..last]);
      RunKeepsBudget(s, cap, maxSeg, schedule[..last]);
      hide InBudget, ProducerStep, ConsumerStep;
      match schedule[last]
      case Produce(p, v, ok) => if p < |before.producers| { ProducerKeepsBudget(before, cap, maxSeg, p, v, ok); }
      case Consume(ok) => ConsumerKeepsBudget(before, maxSeg, ok);
    }
  }

  /**
    In every interleaving of n producers and the consumer, the live segments exceed the
    budget by at most n - 1, and `segs` is their number less the links and plus the drops
    not counted yet, modulo 2^64.
   */
  lemma BudgetUnderRaces<V>(n: nat, cap: nat, maxSeg: Word, schedule: seq<Move<V>>)
    requires n >= 1 && maxSeg >= 1 && maxSeg + n < WORDS
    ensures var s := Run(Init<V>(n), cap, maxSeg, schedule);
      && 1 <= Live(s) <= maxSeg - 1 + n
      && s.segs == Wrap(Live(s) - Adders(s.producers) + if s.consumer.SubSegs? then 1 else 0)
  {
    hide Run, Init, Wrap, Adders, Holders, Entries, InSendOrder, Receipts, RefusedPast, Sends, ProducerFits, ConsumerFits;
    StartsInBudget<V>(n, maxSeg);
    RunKeepsBudget(Init<V>(n), cap, maxSeg, schedule);
  }

  lemma StartsInBudget<V>(n: nat, maxSeg: Word)
    requires n >= 1 && maxSeg >= 1
    ensures InBudget(Init<V>(n), maxSeg) && |Init<V>(n).producers| == n
  {
    NobodyCounts<V>(n);
    hide Inv;
  }

  // ---------------------------------------------------------------- the bound is reached

  /** One producer fills and links, counting each segment, until there are `target` of them. */
  lemma {:induction false} GrowTo<V(!new)>(s0: State<V>, cap: nat, maxSeg: Word, s: State<V>, live: nat, target: nat, v: V) returns (t: State<V>)
    requires Inv(s0) && Leads(s0, cap, maxSeg, s) && Inv(s) && Lined(s, cap, live) && |s.producers| >= 1 && s.producers[0].Idle?
    requires s.segs == live <= target <= maxSeg && cap >= 1
    ensures Inv(t) && Leads(s0, cap, maxSeg, t) && Lined(t, cap, target) && SameRest(s, t)
    ensures t.segs == target && t.producers == s.producers
    decreases target - live
  {
    hide Inv, Leads, Lined;
    t := s;
    if live < target {
      t := FillAndLink(s0, cap, maxSeg, s, live, 0, v);
      t := Settle(s0, cap, maxSeg, t, live + 1, 0, v);
      assert t.producers == s.producers;
      t := GrowTo(s0, cap, maxSeg, t, live + 1, target, v);
    }
  }

  /** Producers q.. each fill and link, and none gets to count its segment. */
  lemma {:induction false} StallFrom<V(!new)>(s0: State<V>, cap: nat, maxSeg: Word, s: State<V>, live: nat, q: nat, v: V) returns (t: State<V>)
    requires Inv(s0) && Leads(s0, cap, maxSeg, s) && Inv(s) && Lined(s, cap, live) && q <= |s.producers|
    requires forall p :: q <= p < |s.producers| ==> s.producers[p].Idle?
    requires s.segs < maxSeg
    ensures Inv(t) && Leads(s0, cap, maxSeg, t) && Lined(t, cap, live + |s.producers| - q) && SameRest(s, t)
    decreases |s.producers| - q
  {
    hide Inv, Leads, Lined;
    t := s;
    if q < |s.producers| {
      t := FillAndLink(s0, cap, maxSeg, s, live, q, v);
      t := StallFrom(s0, cap, maxSeg, t, live + 1, q + 1, v);
    }
  }

  /** With exact rings, n producers can bring the chain to maxSeg - 1 + n live segments. */
  lemma BoundIsReached<V(!new)>(n: nat, cap: nat, maxSeg: Word, v: V) returns (schedule: seq<Move<V>>)
    requires n >= 1 && cap >= 1 && maxSeg >= 2
    ensures Exact(schedule) && Live(Run(Init<V>(n), cap, maxSeg, schedule)) == maxSeg - 1 + n
  {
    var s0 := Init<V>(n);
    LeadsNowhere(s0, cap, maxSeg);
    hide Inv, Leads;
    assert Lined(s0, cap, 1);
    var s := GrowTo(s0, cap, maxSeg, s0, 1, maxSeg - 1, v);
    s := StallFrom(s0, cap, maxSeg, s, maxSeg - 1, 0, v);
    schedule := SegmentedLoss.Witness(s0, cap, maxSeg, s);
  }

  ghost predicate KeepsBudget<V(!new)>(n: nat, cap: nat, maxSeg: Word) {
    forall schedule: seq<Move<V>> :: Live(Run(Init<V>(n), cap, maxSeg, schedule)) <= maxSeg
  }

  /** The budget holds in every interleaving exactly with a single producer or a budget of one segment. */
  lemma BudgetHoldsIff<V(!new)>(n: nat, cap: nat, maxSeg: Word, v: V)
    requires n >= 1 && cap >= 1 && maxSeg >= 1 && maxSeg + n < WORDS
    ensures KeepsBudget<V>(n, cap, maxSeg) <==> n == 1 || maxSeg == 1
  {
    if n == 1 || maxSeg == 1 {
      forall schedule: seq<Move<V>> ensures Live(Run(Init<V>(n), cap, maxSeg, schedule)) <= maxSeg {
        BudgetUnderRaces<V>(n, cap, maxSeg, schedule);
        if maxSeg == 1 { SegmentedLoss.RunKeepsSingle(Init<V>(n), cap, maxSeg, schedule); }
      }
    } else {
      var schedule := BoundIsReached(n, cap, maxSeg, v);
      assert Live(Run(Init<V>(n), cap, maxSeg, schedule)) > maxSeg;
    }
  }

  // ---------------------------------------------------------------- what a refusal means

  /** What the counter tells a producer that has found its ring full. */
  lemma CounterTells<V>(n: nat, cap: nat, maxSeg: Word, schedule: seq<Move<V>>, p: nat)
    requires n >= 1 && maxSeg >= 1 && maxSeg + n < WORDS
    requires var s := Run(Init<V>(n), cap, maxSeg, schedule); p < n && s.producers[p].LoadSegs?
    ensures var s := Run(Init<V>(n), cap, maxSeg, schedule);
      s.segs >= maxSeg <==> Counted(s) >= maxSeg || Counted(s) < 0
  {
    hide Inv, Wrap, Adders, Holders;
    var s := Run(Init<V>(n), cap, maxSeg, schedule);
    BudgetUnderRaces(n, cap, maxSeg, schedule);
    assert |s.producers| == n;
    hide Run, Init;
    CountedInRange(s, p);
    WrapTells(Counted(s), maxSeg, n);
  }

  /**
    Of all the accesses of any run, a call of p is refused by exactly those of its own that
    read the counter while the live segments, less the links and plus the drops not counted
    yet, fill the budget, or while there are more uncounted links than that and the counter
    has wrapped.
   */
  lemma RefusalUnderRaces<V>(n: nat, cap: nat, maxSeg: Word, schedule: seq<Move<V>>, m: Move<V>, p: nat)
    requires n >= 1 && maxSeg >= 1 && maxSeg + n < WORDS && p < n
    ensures var s := Run(Init<V>(n), cap, maxSeg, schedule); var t := Step(s, cap, maxSeg, m);
      && p < |t.refused| && p < |s.refused|
      && (t.refused[p] != s.refused[p] <==>
           m.Produce? && m.p == p && s.producers[p].LoadSegs? && (Counted(s) >= maxSeg || Counted(s) < 0))
  {
    hide Inv, Counted, Run, Step;
    var s := Run(Init<V>(n), cap, maxSeg, schedule);
    assert |s.producers| == n;
    SegmentCalls.RefusedExactly(s, cap, maxSeg, m, p);
    if s.producers[p].LoadSegs? { CounterTells(n, cap, maxSeg, schedule, p); }
  }

  lemma CountedInRange<V>(s: State<V>, p: nat)
    requires p < |s.producers| && s.producers[p].LoadSegs?
    ensures Live(s) - |s.producers| < Counted(s) <= Live(s) + 1
  {
    CountsUpdate(s.producers, p, AddSegs(s.producers[p].v));
    CountsFit(s.producers[p := AddSegs(s.producers[p].v)]);
  }

  /** A wrapped counter is at or above a small budget exactly when it is, or has gone below zero. */
  lemma WrapTells(c: int, maxSeg: Word, n: nat)
    requires -(n as int) < c < WORDS && maxSeg + n < WORDS
    ensures Wrap(c) >= maxSeg <==> c >= maxSeg || c < 0
  {
  }

  /** Some run has a producer about to load `segs` after the counter has gone below zero. */
  ghost predicate CanWrap<V(!new)>(n: nat, cap: nat, maxSeg: Word) {
    exists schedule: seq<Move<V>>, p: nat ::
      p < n && Run(Init<V>(n), cap, maxSeg, schedule).producers[p].LoadSegs? && Counted(Run(Init<V>(n), cap, maxSeg, schedule)) < 0
  }

  /** Producer 2 has found segment 0 full; producers 0 and 1 have each linked a segment and not counted it. */
  lemma ThreeStalled<V(!new)>(n: nat, cap: nat, maxSeg: Word, v: V) returns (s: State<V>)
    requires n >= 3 && cap >= 1 && maxSeg >= 2
    ensures Inv(s) && Leads(Init<V>(n), cap, maxSeg, s) && Lined(s, cap, 3) && s.chain[2] == Segment([], 0)
    ensures s.consumer.Waiting? && s.segs == 1
    ensures s.producers == seq(n, _ => Idle)[2 := LoadSegs(v, 0)][0 := AddSegs(v)][1 := AddSegs(v)]
  {
    var s0 := Init<V>(n);
    LeadsNowhere(s0, cap, maxSeg);
    hide Inv, Leads;
    assert Lined(s0, cap, 1);
    s := FillTail(s0, cap, maxSeg, s0, 1, 0, v);
    s := StallAtSegs(s0, cap, maxSeg, s, 1, 2, v);
    hide Lined;
    s := FillAndLink(s0, cap, maxSeg, s, 1, 0, v);
    s := FillAndLink(s0, cap, maxSeg, s, 2, 1, v);
  }

  /** The consumer empties the first two of three segments and moves past them. */
  lemma DrainTwo<V(!new)>(s0: State<V>, cap: nat, maxSeg: Word, s: State<V>) returns (t: State<V>)
    requires Inv(s0) && Leads(s0, cap, maxSeg, s) && Inv(s) && s.consumer.Waiting? && s.head == 0 && |s.chain| == 3
    ensures Inv(t) && Leads(s0, cap, maxSeg, t) && t.consumer.LoadHead? && t.head == 2
    ensures t.producers == s.producers && t.segs == Plus(Plus(s.segs, WORDS - 1), WORDS - 1)
    ensures |t.chain| == 3 && t.chain[2] == s.chain[2]
  {
    hide Leads, Plus, Entries, InSendOrder, Receipts, RefusedPast;
    t := Consumed(s0, cap, maxSeg, s);
    hide Inv;
    t := TakeAll(s0, cap, maxSeg, t);
    t := MoveOn(s0, cap, maxSeg, t);
    t := TakeAll(s0, cap, maxSeg, t);
    t := MoveOn(s0, cap, maxSeg, t);
  }

  /**
    Two producers link and stall before counting, the consumer drains both old heads, and a
    third, which found the tail full long ago, now reads 2^64 - 1 and refuses: the queue is empty.
   */
  lemma EmptyQueueRefuses<V(!new)>(n: nat, cap: nat, maxSeg: Word, v: V) returns (schedule: seq<Move<V>>)
    requires n >= 3 && cap >= 1 && maxSeg >= 2
    ensures Exact(schedule)
    ensures var s := Run(Init<V>(n), cap, maxSeg, schedule);
      && s.producers[2].LoadSegs? && s.segs == WORDS - 1 && s.segs >= maxSeg
      && Live(s) == 1 && Counted(s) == -1 && SegmentedLoss.Held(s) == 0
  {
    hide Inv, Leads, Adders, Run, Plus, Entries, InSendOrder, Receipts, RefusedPast;
    var s := ThreeStalled(n, cap, maxSeg, v);
    TwoAdders(s.producers);
    s := DrainTwo(Init<V>(n), cap, maxSeg, s);
    DroppedTwice();
    SegmentedLoss.EmptyCounts(s.chain);
    schedule := SegmentedLoss.Witness(Init<V>(n), cap, maxSeg, s);
  }

  lemma DroppedTwice()
    ensures Plus(Plus(1, WORDS - 1), WORDS - 1) == WORDS - 1
  {
  }

  /** The first two producers are the only ones with a link to count. */
  lemma {:induction false} TwoAdders<V>(producers: seq<Producer<V>>)
    requires |producers| >= 2 && producers[0].AddSegs? && producers[1].AddSegs?
    requires forall p :: 2 <= p < |producers| ==> !Adding(producers[p])
    ensures Adders(producers) == 2
  {
    if |producers| == 2 {
      assert producers[..1][..0] == [];
      assert producers[..2] == producers;
    } else {
      TwoAdders(producers[..|producers| - 1]);
    }
  }

  /** The counter can go below zero under a refusal exactly with three producers and two segments or more. */
  lemma WrapsIff<V(!new)>(n: nat, cap: nat, maxSeg: Word, v: V)
    requires n >= 1 && cap >= 1 && maxSeg >= 1 && maxSeg + n < WORDS
    ensures CanWrap<V>(n, cap, maxSeg) <==> n >= 3 && maxSeg >= 2
  {
    if n >= 3 && maxSeg >= 2 {
      var schedule := EmptyQueueRefuses(n, cap, maxSeg, v);
      assert 2 < n && Run(Init<V>(n), cap, maxSeg, schedule).producers[2].LoadSegs?;
    } else {
      forall schedule: seq<Move<V>>, p: nat | p < n && Run(Init<V>(n), cap, maxSeg, schedule).producers[p].LoadSegs?
        ensures Counted(Run(Init<V>(n), cap, maxSeg, schedule)) >= 0
      {
        CountedIsNotNegative(n, cap, maxSeg, schedule, p);
      }
    }
  }

  lemma CountedIsNotNegative<V>(n: nat, cap: nat, maxSeg: Word, schedule: seq<Move<V>>, p: nat)
    requires n >= 1 && maxSeg >= 1 && maxSeg + n < WORDS && (n <= 2 || maxSeg == 1)
    requires p < n && Run(Init<V>(n), cap, maxSeg, schedule).producers[p].LoadSegs?
    ensures Counted(Run(Init<V>(n), cap, maxSeg, schedule)) >= 0
  {
    var s := Run(Init<V>(n), cap, maxSeg, schedule);
    BudgetUnderRaces(n, cap, maxSeg, schedule);
    if s.producers[p].LoadSegs? { CountedInRange(s, p); }
    if maxSeg == 1 {
      SegmentedLoss.RunKeepsSingle(Init<V>(n), cap, maxSeg, schedule);
      NoAdders(s.producers);
    }
    hide Run, Adders, Holders, Inv;
  }

  lemma {:induction false} NoAdders<V>(producers: seq<Producer<V>>)
    requires forall p :: 0 <= p < |producers| ==> !Adding(producers[p])
    ensures Adders(producers) == 0
  {
    if producers != [] { NoAdders(producers[..|producers| - 1]); }
  }
}
