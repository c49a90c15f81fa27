/**
  What becomes of an accepted message when producers and the consumer race along the chain:
  it is received, or held where the consumer will look, or left behind head for good.
 */
module SegmentedLoss {
  import opened Words
  import opened SegmentedSteps
  import opened SegmentedRuns

  // ---------------------------------------------------------------- counting places

  /** The places claimed and not taken in the first k segments. */
  function Untaken<V>(chain: seq<Segment<V>>, k: nat): int
    requires k <= |chain|
  {
    if k == 0 then 0 else Untaken(chain, k - 1) + |chain[k - 1].claimed| - chain[k - 1].taken
  }

  /** Where the consumer will still look. */
  function Held<V>(s: State<V>): int
    requires s.head <= |s.chain|
  {
    Untaken(s.chain, |s.chain|) - Untaken(s.chain, s.head)
  }

  /** Behind head: accepted, never to be received. */
  function Stranded<V>(s: State<V>): int
    requires s.head <= |s.chain|
  {
    Untaken(s.chain, s.head)
  }

  ghost predicate Sound<V>(chain: seq<Segment<V>>) {
    forall i :: 0 <= i < |chain| ==> chain[i].taken <= |chain[i].claimed|
  }

  lemma {:induction false} UntakenGrows<V>(chain: seq<Segment<V>>, j: nat, k: nat)
    requires Sound(chain) && j <= k <= |chain|
    ensures 0 <= Untaken(chain, j) <= Untaken(chain, k)
    ensures Untaken(chain, j) == Untaken(chain, k) <==> forall a :: j <= a < k ==> chain[a].taken == |chain[a].claimed|
    decreases k
  {
    if j < k {
      UntakenGrows(chain, j, k - 1);
    } else if k > 0 {
      UntakenGrows(chain, k - 1, k - 1);
    }
  }

  /** One segment changes. */
  lemma {:induction false} UntakenUpdate<V>(chain: seq<Segment<V>>, t: nat, seg: Segment<V>, k: nat)
    requires t < |chain| && k <= |chain|
    ensures Untaken(chain[t := seg], k) == Untaken(chain, k)
      + if t < k then |seg.claimed| - seg.taken - (|chain[t].claimed| - chain[t].taken) else 0
  {
    if k > 0 { UntakenUpdate(chain, t, seg, k - 1); }
  }

  /** Longer chains agree on what they share. */
  lemma {:induction false} UntakenPrefix<V>(chain: seq<Segment<V>>, longer: seq<Segment<V>>, k: nat)
    requires chain <= longer && k <= |chain|
    ensures Untaken(longer, k) == Untaken(chain, k)
  {
    if k > 0 { UntakenPrefix(chain, longer, k - 1); }
  }

  /** A producer's access claims one place or none, where the consumer will look or behind it. */
  lemma ProducerCounts<V>(s: State<V>, cap: nat, maxSeg: Word, p: nat, v: V, ok: bool)
    requires Inv(s) && p < |s.producers|
    ensures var t := ProducerStep(s, cap, maxSeg, p, v, ok); var done := s.producers[p].RingPut? && t.producers[p].Idle?;
      && Wellformed(t)
      && Untaken(t.chain, |t.chain|) == Untaken(s.chain, |s.chain|) + (if done then 1 else 0)
      && Stranded(t) == Stranded(s) + (if done && s.producers[p].t < s.head then 1 else 0)
  {
    hide Untaken;
    ProducerStepKeepsInv(s, cap, maxSeg, p, v, ok);
    var t, pc := ProducerStep(s, cap, maxSeg, p, v, ok), s.producers[p];
    if pc.RingPut? && t.producers[p].Idle? {
      UntakenUpdate(s.chain, pc.t, t.chain[pc.t], |s.chain|);
      UntakenUpdate(s.chain, pc.t, t.chain[pc.t], s.head);
    } else if pc.CasNext? && pc.t + 1 == |s.chain| {
      UntakenPrefix(s.chain, t.chain, |s.chain|);
      UntakenPrefix(s.chain, t.chain, s.head);
      EmptyCounts(t.chain);
    }
  }

  lemma EmptyCounts<V>(chain: seq<Segment<V>>)
    requires chain != [] && chain[|chain| - 1] == Segment([], 0)
    ensures Untaken(chain, |chain|) == Untaken(chain, |chain| - 1)
  {
  }

  /** The consumer's access takes one place or none; moving head strands what the old head segment holds. */
  lemma ConsumerCounts<V>(s: State<V>, ok: bool)
    requires Inv(s)
    ensures var t := ConsumerStep(s, ok); var done := s.consumer.RingTake? && t.consumer.Waiting?;
      && Wellformed(t)
      && Untaken(t.chain, |t.chain|) == Untaken(s.chain, |s.chain|) - (if done then 1 else 0)
      && Stranded(t) == Stranded(s) + (if s.consumer.StoreHead? then |s.chain[s.head].claimed| - s.chain[s.head].taken else 0)
  {
    ConsumerStepKeepsInv(s, ok);
    var t := ConsumerStep(s, ok);
    if s.consumer.RingTake? && t.consumer.Waiting? {
      UntakenUpdate(s.chain, s.head, t.chain[s.head], |s.chain|);
      UntakenUpdate(s.chain, s.head, t.chain[s.head], s.head);
      hide Untaken;
    }
  }

  // ---------------------------------------------------------------- nothing vanishes

  ghost predicate Claimed<V>(s: State<V>, p: nat, k: nat, a: nat, i: nat) {
    a < |s.chain| && i < |s.chain[a].claimed| && s.chain[a].claimed[i].from == p && s.chain[a].claimed[i].k == k
  }

  /** Every call that is over and answered true has a place in the chain. */
  ghost predicate AllPlaced<V>(s: State<V>)
    requires |s.sent| == |s.refused| == |s.producers|
  {
    forall p: nat, k: nat :: p < |s.producers| && k < Current(s, p) && k !in s.refused[p] ==> Placed(s, p, k)
  }

  ghost predicate Placed<V>(s: State<V>, p: nat, k: nat) {
    exists a: nat, i: nat :: Claimed(s, p, k, a, i)
  }

  /** Every place taken has a receipt. */
  ghost predicate AllReceipted<V>(s: State<V>) {
    forall a: nat, i: nat {:trigger Receipted(s, a, i)} :: a < |s.chain| && i < s.chain[a].taken ==> Receipted(s, a, i)
  }

  ghost predicate Receipted<V>(s: State<V>, a: nat, i: nat) {
    exists x: nat :: x < |s.received| && s.received[x].seg == a && s.received[x].idx == i
  }

  /** Rings only ever gain places. */
  ghost predicate Grows<V>(s: State<V>, t: State<V>) {
    |s.chain| <= |t.chain| && forall a :: 0 <= a < |s.chain| ==> s.chain[a].claimed <= t.chain[a].claimed
  }

  lemma PlacedStays<V>(s: State<V>, t: State<V>, p: nat, k: nat)
    requires Grows(s, t) && Placed(s, p, k)
    ensures Placed(t, p, k)
  {
    var a: nat, i: nat :| Claimed(s, p, k, a, i);
    assert Claimed(t, p, k, a, i);
  }

  lemma ProducerGrows<V>(s: State<V>, cap: nat, maxSeg: Word, p: nat, v: V, ok: bool)
    requires Inv(s) && p < |s.producers|
    ensures Grows(s, ProducerStep(s, cap, maxSeg, p, v, ok))
  {
    hide Entries, InSendOrder, Receipts, RefusedPast, Sends;
  }

  lemma ConsumerGrows<V>(s: State<V>, ok: bool)
    requires Inv(s)
    ensures Grows(s, ConsumerStep(s, ok))
  {
    hide Entries, InSendOrder, Receipts, RefusedPast, Sends;
  }

  /** The only call an access can bring to an end is the producer's own; if it is accepted it has its place. */
  lemma NewlyAccepted<V>(s: State<V>, cap: nat, maxSeg: Word, p: nat, v: V, ok: bool, q: nat, k: nat)
    requires Inv(s) && p < |s.producers| && q < |s.producers|
    ensures var t := ProducerStep(s, cap, maxSeg, p, v, ok);
      && |t.sent| == |t.refused| == |t.producers| == |s.producers|
      && (k < Current(t, q) && k !in t.refused[q] ==> (k < Current(s, q) && k !in s.refused[q]) || Placed(t, q, k))
  {
    hide Entries, InSendOrder, Receipts, RefusedPast;
    var t, pc := ProducerStep(s, cap, maxSeg, p, v, ok), s.producers[p];
    assert Sends(pc, s.sent[p]);
    if pc.RingPut? && t.producers[p].Idle? && q == p && k == |s.sent[p]| - 1 {
      assert Claimed(t, p, k, pc.t, |s.chain[pc.t].claimed|);
    }
  }

  lemma ProducerKeepsPlaced<V>(s: State<V>, cap: nat, maxSeg: Word, p: nat, v: V, ok: bool)
    requires Inv(s) && p < |s.producers| && AllPlaced(s) && AllReceipted(s)
    ensures var t := ProducerStep(s, cap, maxSeg, p, v, ok); Inv(t) && AllPlaced(t) && AllReceipted(t)
  {
    ProducerStepKeepsInv(s, cap, maxSeg, p, v, ok);
    ProducerGrows(s, cap, maxSeg, p, v, ok);
    var t := ProducerStep(s, cap, maxSeg, p, v, ok);
    assert |t.producers| == |s.producers|;
    assert AllReceipted(t) by {
      ProducerTakesNothing(s, cap, maxSeg, p, v, ok);
      hide ProducerStep, Inv;
      forall a: nat, i: nat | a < |t.chain| && i < t.chain[a].taken ensures Receipted(t, a, i) {
        assert Receipted(s, a, i);
      }
    }
    hide Inv, ProducerStep, Placed;
    forall q: nat, k: nat | q < |t.producers| && k < Current(t, q) && k !in t.refused[q] ensures Placed(t, q, k) {
      NewlyAccepted(s, cap, maxSeg, p, v, ok, q, k);
      if k < Current(s, q) && k !in s.refused[q] { PlacedStays(s, t, q, k); }
    }
  }

  lemma ProducerTakesNothing<V>(s: State<V>, cap: nat, maxSeg: Word, p: nat, v: V, ok: bool)
    requires Inv(s) && p < |s.producers|
    ensures var t := ProducerStep(s, cap, maxSeg, p, v, ok);
      && t.received == s.received
      && forall a :: 0 <= a < |t.chain| ==> t.chain[a].taken == if a < |s.chain| then s.chain[a].taken else 0
  {
    hide Entries, InSendOrder, Receipts, RefusedPast, Sends;
  }

  /** A consumer access takes the front of the head segment, with a receipt, or nothing. */
  lemma ConsumerTakesFront<V>(s: State<V>, ok: bool)
    requires Inv(s)
    ensures var t := ConsumerStep(s, ok);
      && t.producers == s.producers && t.sent == s.sent && t.refused == s.refused
      && |t.chain| == |s.chain| && s.received <= t.received
      && forall a :: 0 <= a < |s.chain| && t.chain[a].taken != s.chain[a].taken ==>
        t.chain[a].taken == s.chain[a].taken + 1 && |t.received| == |s.received| + 1
        && t.received[|s.received|].seg == a && t.received[|s.received|].idx == s.chain[a].taken
  {
    hide Entries, InSendOrder, Receipts, RefusedPast, Sends;
  }

  lemma ConsumerKeepsPlaced<V>(s: State<V>, ok: bool)
    requires Inv(s) && AllPlaced(s) && AllReceipted(s)
    ensures var t := ConsumerStep(s, ok); Inv(t) && AllPlaced(t) && AllReceipted(t)
  {
    ConsumerStepKeepsInv(s, ok);
    ConsumerGrows(s, ok);
    ConsumerTakesFront(s, ok);
    var t := ConsumerStep(s, ok);
    hide Inv, ConsumerStep, Placed, Receipted, Grows;
    forall q: nat, k: nat | q < |t.producers| && k < Current(t, q) && k !in t.refused[q] ensures Placed(t, q, k) {
      PlacedStays(s, t, q, k);
    }
    forall a: nat, i: nat | a < |t.chain| && i < t.chain[a].taken ensures Receipted(t, a, i) {
      if i < s.chain[a].taken {
        ReceiptStays(s, t, a, i);
      } else {
        NewReceipt(t, |s.received|);
      }
    }
  }

  lemma NewReceipt<V>(s: State<V>, x: nat)
    requires x < |s.received|
    ensures Receipted(s, s.received[x].seg, s.received[x].idx)
  {
  }

  lemma ReceiptStays<V>(s: State<V>, t: State<V>, a: nat, i: nat)
    requires Receipted(s, a, i) && s.received <= t.received
    ensures Receipted(t, a, i)
  {
    var x: nat :| x < |s.received| && s.received[x].seg == a && s.received[x].idx == i;
    assert t.received[x] == s.received[x];
  }

  lemma StepKeepsPlaced<V>(s: State<V>, cap: nat, maxSeg: Word, m: Move<V>)
    requires Inv(s) && AllPlaced(s) && AllReceipted(s)
    ensures var t := Step(s, cap, maxSeg, m); Inv(t) && AllPlaced(t) && AllReceipted(t)
  {
    hide AllPlaced, AllReceipted, ProducerStep, ConsumerStep;
    match m
    case Produce(p, v, ok) => if p < |s.producers| { ProducerKeepsPlaced(s, cap, maxSeg, p, v, ok); }
    case Consume(ok) => ConsumerKeepsPlaced(s, ok);
  }

  lemma {:induction false} RunKeepsPlaced<V>(s: State<V>, cap: nat, maxSeg: Word, schedule: seq<Move<V>>)
    requires Inv(s) && AllPlaced(s) && AllReceipted(s)
    ensures var t := Run(s, cap, maxSeg, schedule); AllPlaced(t) && AllReceipted(t)
    decreases |schedule|
  {
    hide AllPlaced, AllReceipted, Step, Entries, InSendOrder, Receipts, RefusedPast;
    if schedule != [] {
      var last := |schedule| - 1;
      RunKeepsPlaced(s, cap, maxSeg, schedule[..last]);
      StepKeepsPlaced(Run(s, cap, maxSeg, schedule[..last]), cap, maxSeg, schedule[last]);
    }
  }

  // ---------------------------------------------------------------- where accepted messages are

  ghost predicate Accepted<V>(s: State<V>, p: nat, k: nat) {
    p < |s.producers| && p < |s.sent| && p < |s.refused| && k < Current(s, p) && k !in s.refused[p]
  }

  ghost predicate Received<V>(s: State<V>, p: nat, k: nat) {
    exists x: nat :: x < |s.received| && s.received[x].m.from == p && s.received[x].m.k == k
  }

  /** Where the consumer will still look. */
  ghost predicate Ahead<V>(s: State<V>, p: nat, k: nat) {
    exists a: nat, i: nat :: Claimed(s, p, k, a, i) && a >= s.head && i >= s.chain[a].taken
  }

  ghost predicate Behind<V>(s: State<V>, p: nat, k: nat) {
    exists a: nat, i: nat :: Claimed(s, p, k, a, i) && a < s.head && i >= s.chain[a].taken
  }

  lemma PlaceIsUnique<V>(s: State<V>, p: nat, k: nat, a: nat, i: nat, b: nat, j: nat)
    requires Inv(s) && Claimed(s, p, k, a, i) && Claimed(s, p, k, b, j)
    ensures a == b && i == j
  {
    hide Entries, Receipts, RefusedPast, Wellformed;
    assert Before(a, i, b, j) || Before(b, j, a, i) || (a == b && i == j);
    assert s.chain[a].claimed[i].k == s.chain[b].claimed[j].k;
  }

  /** A received message's only place is one that has been taken. */
  lemma ReceivedIsTaken<V>(s: State<V>, p: nat, k: nat, a: nat, i: nat)
    requires Inv(s) && Received(s, p, k) && Claimed(s, p, k, a, i)
    ensures i < s.chain[a].taken
  {
    var x: nat :| x < |s.received| && s.received[x].m.from == p && s.received[x].m.k == k;
    var r := s.received[x];
    assert ReceiptOk(s, r);
    assert Claimed(s, p, k, r.seg, r.idx);
    PlaceIsUnique(s, p, k, a, i, r.seg, r.idx);
  }

  lemma TakenIsReceived<V>(s: State<V>, p: nat, k: nat, a: nat, i: nat)
    requires Inv(s) && AllReceipted(s) && Claimed(s, p, k, a, i) && i < s.chain[a].taken
    ensures Received(s, p, k)
  {
    assert Receipted(s, a, i);
    var x: nat :| x < |s.received| && s.received[x].seg == a && s.received[x].idx == i;
    assert ReceiptOk(s, s.received[x]);
  }

  /** In every interleaving an accepted message is in exactly one of three places: received, ahead, or behind head. */
  lemma AcceptedIsSomewhere<V>(n: nat, cap: nat, maxSeg: Word, schedule: seq<Move<V>>, p: nat, k: nat)
    requires Accepted(Run(Init<V>(n), cap, maxSeg, schedule), p, k)
    ensures var s := Run(Init<V>(n), cap, maxSeg, schedule);
      && (Received(s, p, k) || Ahead(s, p, k) || Behind(s, p, k))
      && !(Received(s, p, k) && (Ahead(s, p, k) || Behind(s, p, k)))
      && !(Ahead(s, p, k) && Behind(s, p, k))
  {
    var s := Run(Init<V>(n), cap, maxSeg, schedule);
    RunKeepsPlaced(Init<V>(n), cap, maxSeg, schedule);
    OnePlace(s, p, k);
  }

  lemma OnePlace<V>(s: State<V>, p: nat, k: nat)
    requires Inv(s) && AllPlaced(s) && AllReceipted(s) && Accepted(s, p, k)
    ensures Received(s, p, k) || Ahead(s, p, k) || Behind(s, p, k)
    ensures !(Received(s, p, k) && (Ahead(s, p, k) || Behind(s, p, k)))
    ensures !(Ahead(s, p, k) && Behind(s, p, k))
  {
    assert Placed(s, p, k);
    hide Placed, Received, AllPlaced, AllReceipted;
    var a: nat, i: nat :| Claimed(s, p, k, a, i);
    forall b: nat, j: nat | Claimed(s, p, k, b, j) ensures b == a && j == i {
      PlaceIsUnique(s, p, k, a, i, b, j);
    }
    if i < s.chain[a].taken { TakenIsReceived(s, p, k, a, i); }
    if Received(s, p, k) { ReceivedIsTaken(s, p, k, a, i); }
    hide Inv;
  }

  // ---------------------------------------------------------------- when nothing is lost

  /** Every accepted message has been received or lies where the consumer will look. */
  ghost predicate NothingLost<V>(s: State<V>) {
    forall p: nat, k: nat :: Accepted(s, p, k) ==> Received(s, p, k) || Ahead(s, p, k)
  }

  /** Nothing is lost exactly while no place behind head is untaken. */
  lemma NothingLostMeansNoneStranded<V>(s: State<V>)
    requires Inv(s) && AllPlaced(s) && AllReceipted(s)
    ensures NothingLost(s) <==> Stranded(s) == 0
  {
    UntakenGrows(s.chain, 0, s.head);
    if Stranded(s) == 0 {
      forall p: nat, k: nat | Accepted(s, p, k) ensures Received(s, p, k) || Ahead(s, p, k) {
        OnePlace(s, p, k);
      }
    } else {
      var a :| 0 <= a < s.head && s.chain[a].taken != |s.chain[a].claimed|;
      var m := s.chain[a].claimed[s.chain[a].taken];
      assert EntryOk(s, m, a);
      assert Claimed(s, m.from, m.k, a, s.chain[a].taken);
      OnePlace(s, m.from, m.k);
      assert Behind(s, m.from, m.k) && Accepted(s, m.from, m.k);
    }
  }

  /** With a budget of one segment the chain never grows. */
  ghost predicate Single<V>(s: State<V>) {
    && |s.chain| == 1 && s.head == 0 && s.tail == 0 && s.segs == 1
    && (forall p :: 0 <= p < |s.producers| ==> InSingle(s.producers[p]))
    && !s.consumer.StoreHead? && !s.consumer.SubSegs?
  }

  predicate InSingle<V>(pc: Producer<V>) {
    pc.Idle? || pc.LoadTail? || pc.RingPut? || pc.LoadSegs?
  }

  lemma StepKeepsSingle<V>(s: State<V>, cap: nat, maxSeg: Word, m: Move<V>)
    requires Inv(s) && Single(s) && maxSeg <= 1
    ensures Single(Step(s, cap, maxSeg, m))
  {
    hide Entries, InSendOrder, Receipts, RefusedPast, Sends;
  }

  lemma {:induction false} RunKeepsSingle<V>(s: State<V>, cap: nat, maxSeg: Word, schedule: seq<Move<V>>)
    requires Inv(s) && Single(s) && maxSeg <= 1
    ensures Single(Run(s, cap, maxSeg, schedule))
    decreases |schedule|
  {
    if schedule != [] {
      var last := |schedule| - 1;
      RunKeepsSingle(s, cap, maxSeg, schedule[..last]);
      StepKeepsSingle(Run(s, cap, maxSeg, schedule[..last]), cap, maxSeg, schedule[last]);
      hide Single, Inv, Step;
    }
  }

  /** The consumer looks into the empty head segment and pauses. */
  lemma FindEmpty<V(!new)>(n: nat, cap: nat, maxSeg: Word) returns (s: State<V>)
    ensures Inv(s) && Leads(Init<V>(n), cap, maxSeg, s) && s == Init<V>(n).(consumer := LoadHeadNext(0))
  {
    var s0 := Init<V>(n);
    LeadsNowhere(s0, cap, maxSeg);
    hide Entries, InSendOrder, Receipts, RefusedPast, Sends, Leads;
    s := Consumed(s0, cap, maxSeg, s0);
    s := Consumed(s0, cap, maxSeg, s);
    s := Consumed(s0, cap, maxSeg, s);
  }

  /** The run of AcceptedCanBeLost. */
  lemma LosingRun<V(!new)>(n: nat, cap: nat, maxSeg: Word, v: V) returns (s: State<V>)
    requires n >= 1 && cap >= 1 && maxSeg >= 2
    ensures Inv(s) && Leads(Init<V>(n), cap, maxSeg, s) && s.consumer.Waiting?
    ensures s.producers == Init<V>(n).producers && s.refused == Init<V>(n).refused && s.head == 1 && |s.chain| == 2
    ensures s.chain[0].taken == 0 && |s.chain[0].claimed| == cap && s.chain[1].taken == 1 == |s.chain[1].claimed|
    ensures |s.sent| == n && |s.sent[0]| == cap + 1 && |s.received| == 1
  {
    var s0 := Init<V>(n);
    hide Inv, Leads, Plus;
    s := FindEmpty(n, cap, maxSeg);
    assert Lined(s, cap, 1);
    s := FillAndLink(s0, cap, maxSeg, s, 1, 0, v);
    s := Settle(s0, cap, maxSeg, s, 2, 0, v);
    assert s.producers == s0.producers;
    s := PassHead(s0, cap, maxSeg, s);
    s := TakeAndWait(s0, cap, maxSeg, s);
  }

  /**
    With two or more segments and exact rings there is always a run that loses a whole
    segment: the consumer finds segment 0 empty, a producer fills it and links another, and
    the consumer then moves on. At the end no call is under way, every call was accepted, and
    the consumer will never look at `cap` of the values again.
   */
  lemma AcceptedCanBeLost<V(!new)>(n: nat, cap: nat, maxSeg: Word, v: V) returns (schedule: seq<Move<V>>)
    requires n >= 1 && cap >= 1 && maxSeg >= 2
    ensures Exact(schedule)
    ensures var s := Run(Init<V>(n), cap, maxSeg, schedule);
      && s.consumer.Waiting? && (forall p :: 0 <= p < n ==> s.producers[p].Idle? && s.refused[p] == {})
      && |s.sent[0]| == cap + 1 && |s.received| == 1
      && Stranded(s) == cap && Held(s) == 0
  {
    var s := LosingRun(n, cap, maxSeg, v);
    schedule := Witness(Init<V>(n), cap, maxSeg, s);
    hide Inv, Leads, Run;
    assert Untaken(s.chain, 1) == Untaken(s.chain, 0) + cap && Untaken(s.chain, 2) == Untaken(s.chain, 1);
  }

  lemma Witness<V(!new)>(s: State<V>, cap: nat, maxSeg: Word, t: State<V>) returns (schedule: seq<Move<V>>)
    requires Inv(s) && Leads(s, cap, maxSeg, t)
    ensures Exact(schedule) && Run(s, cap, maxSeg, schedule) == t
  {
    schedule :| Exact(schedule) && Run(s, cap, maxSeg, schedule) == t;
  }

  lemma TakeAndWait<V(!new)>(s0: State<V>, cap: nat, maxSeg: Word, s: State<V>) returns (t: State<V>)
    requires Inv(s0) && Leads(s0, cap, maxSeg, s) && Inv(s) && s.consumer.LoadHead?
    requires s.chain[s.head].taken < |s.chain[s.head].claimed|
    ensures Inv(t) && Leads(s0, cap, maxSeg, t) && t.consumer.Waiting?
    ensures t == s.(consumer := Waiting, chain := t.chain, received := t.received) && |t.received| == |s.received| + 1
    ensures t.chain == s.chain[s.head := s.chain[s.head].(taken := s.chain[s.head].taken + 1)]
  {
    hide Entries, InSendOrder, Receipts, RefusedPast, Leads;
    var s1 := Consumed(s0, cap, maxSeg, s);
    t := Consumed(s0, cap, maxSeg, s1);
  }

  ghost predicate NeverLoses<V(!new)>(n: nat, cap: nat, maxSeg: Word) {
    forall schedule: seq<Move<V>> :: NothingLost(Run(Init<V>(n), cap, maxSeg, schedule))
  }

  /** No accepted message is ever lost, in any interleaving, exactly when the queue was made for at most one segment. */
  lemma NothingIsLostIffOneSegment<V(!new)>(n: nat, cap: nat, maxSeg: Word, v: V)
    requires n >= 1 && cap >= 1
    ensures NeverLoses<V>(n, cap, maxSeg) <==> maxSeg <= 1
  {
    if maxSeg <= 1 {
      forall schedule: seq<Move<V>> ensures NothingLost(Run(Init<V>(n), cap, maxSeg, schedule)) {
        RunKeepsSingle(Init<V>(n), cap, maxSeg, schedule);
        RunKeepsPlaced(Init<V>(n), cap, maxSeg, schedule);
        NothingLostMeansNoneStranded(Run(Init<V>(n), cap, maxSeg, schedule));
      }
    } else {
      var schedule := AcceptedCanBeLost(n, cap, maxSeg, v);
      RunKeepsPlaced(Init<V>(n), cap, maxSeg, schedule);
      NothingLostMeansNoneStranded(Run(Init<V>(n), cap, maxSeg, schedule));
      assert !NothingLost(Run(Init<V>(n), cap, maxSeg, schedule));
    }
  }
}
